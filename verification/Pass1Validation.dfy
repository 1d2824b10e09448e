/** The validator of the first model pass: a grouping of findings. */
module Pass1Validation {
  import opened Models
  import opened Json
  import opened PatternSanitizer
  import opened Sequences

  datatype Pass1Group = Pass1Group(
    groupLabel: string,
    explanation: Option<string>,
    pathPrefixes: seq<string>,
    pkgNameExact: seq<string>,
    pkgNameGlob: seq<string>,
    pkgPurlPattern: seq<string>,
    findingIds: seq<int>)

  datatype Pass1Result = Pass1Result(groups: seq<Pass1Group>, ungroupedFindingIds: seq<int>)

  // ------------------------------------------------------------------ labels

  predicate IsLabelHead(c: char) {
    'a' <= c <= 'z' || '0' <= c <= '9'
  }

  predicate IsPlainLabel(s: string) {
    && 1 <= |s| <= 64
    && IsLabelHead(s[0])
    && forall k :: 1 <= k < |s| ==> IsLabelHead(s[k]) || s[k] in {'.', '_', '-'}
  }

  /** `LABEL_PATTERN.match`: the `$` also matches before a final newline. */
  predicate IsLabel(s: string) {
    || IsPlainLabel(s)
    || (s != "" && s[|s| - 1] == '\n' && IsPlainLabel(s[..|s| - 1]))
  }

  /** An accepted label is of the documented form exactly when it has no newline. */
  lemma LabelIsPlainIff(s: string)
    requires IsLabel(s)
    ensures IsPlainLabel(s) <==> '\n' !in s
  {
    if IsPlainLabel(s) {
      assert forall k :: 0 <= k < |s| ==> s[k] != '\n';
    }
  }

  // ------------------------------------------------------------------ the accepted shape

  function Field(raw: Json, key: string): Json {
    if raw.Obj? then Get(raw.fields, key) else Null
  }

  function LabelOf(raw: Json): string {
    if Field(raw, "label").Str? then Field(raw, "label").s else ""
  }

  function IdsOf(raw: Json): seq<int> {
    if Field(raw, "finding_ids").List? then Ints(Field(raw, "finding_ids").items) else []
  }

  /** `grp_raw.get("match_rules") or {}`. */
  function RulesOf(raw: Json): Json {
    if Truthy(Field(raw, "match_rules")) then Field(raw, "match_rules") else Obj(map[])
  }

  predicate ExplanationFits(j: Json) {
    j == Null || (j.Str? && '\0' !in j.s)
  }

  predicate RulesFit(rules: Json) {
    && rules.Obj?
    && PatternsOf(Field(rules, "path_prefixes"), SanitizePathPrefix).Some?
    && PatternsOf(Field(rules, "pkg_name_exact"), SanitizePkgName).Some?
    && PatternsOf(Field(rules, "pkg_name_glob"), SanitizePkgGlob).Some?
    && PatternsOf(Field(rules, "pkg_purl_pattern"), SanitizePurlPattern).Some?
  }

  predicate GroupShape(raw: Json) {
    && raw.Obj?
    && Field(raw, "label").Str? && IsLabel(LabelOf(raw))
    && ExplanationFits(Field(raw, "explanation"))
    && RulesFit(RulesOf(raw))
    && Field(raw, "finding_ids").List? && AllInts(Field(raw, "finding_ids").items)
  }

  function GroupOf(raw: Json): Pass1Group
    requires GroupShape(raw)
  {
    var rules := RulesOf(raw);
    Pass1Group(
      LabelOf(raw),
      if Field(raw, "explanation").Str? then Some(Field(raw, "explanation").s) else None,
      PatternsOf(Field(rules, "path_prefixes"), SanitizePathPrefix).value,
      PatternsOf(Field(rules, "pkg_name_exact"), SanitizePkgName).value,
      PatternsOf(Field(rules, "pkg_name_glob"), SanitizePkgGlob).value,
      PatternsOf(Field(rules, "pkg_purl_pattern"), SanitizePurlPattern).value,
      IdsOf(raw))
  }

  function Labels(raws: seq<Json>): seq<string> {
    seq(|raws|, k requires 0 <= k < |raws| => LabelOf(raws[k]))
  }

  /** The ids of all groups after one another. */
  function AllIds(raws: seq<Json>): seq<int> {
    if raws == [] then [] else AllIds(raws[..|raws| - 1]) + IdsOf(raws[|raws| - 1])
  }

  predicate GroupsFit(raws: seq<Json>, input: set<int>) {
    && (forall k :: 0 <= k < |raws| ==> GroupShape(raws[k]))
    && Distinct(Labels(raws))
    && Distinct(AllIds(raws))
    && (forall k :: 0 <= k < |AllIds(raws)| ==> AllIds(raws)[k] in input)
  }

  predicate UngroupedFits(items: seq<Json>, input: set<int>, grouped: seq<int>) {
    forall k :: 0 <= k < |items| ==> items[k].Int? && items[k].n in input && items[k].n !in grouped
  }

  predicate ResponseFits(response: map<string, Json>, input: set<int>) {
    var groups, ungrouped := Get(response, "groups"), Get(response, "ungrouped");
    && groups.List? && ungrouped.List?
    && GroupsFit(groups.items, input)
    && UngroupedFits(ungrouped.items, input, AllIds(groups.items))
    && forall id :: id in input ==> id in AllIds(groups.items) || id in Ints(ungrouped.items)
  }

  function GroupsOf(raws: seq<Json>): seq<Pass1Group>
    requires forall k :: 0 <= k < |raws| ==> GroupShape(raws[k])
  {
    seq(|raws|, k requires 0 <= k < |raws| => GroupOf(raws[k]))
  }

  // ------------------------------------------------------------------ the validator

  /** The ids of one group against the ids that earlier groups took; `None` is the rejection. */
  method TakeIds(items: seq<Json>, input: set<int>, seen: set<int>) returns (ids: Option<seq<int>>)
    ensures ids.Some? <==>
              && AllInts(items) && Distinct(Ints(items))
              && forall k :: 0 <= k < |items| ==> Ints(items)[k] in input - seen
    ensures ids.Some? ==> ids.value == Ints(items)
  {
    var taken: seq<int> := [];
    var seenNow := seen;
    for n := 0 to |items|
      invariant |taken| == n
      invariant forall k :: 0 <= k < n ==> items[k].Int? && taken[k] == items[k].n && taken[k] in input - seen
      invariant Distinct(taken)
      invariant seenNow == seen + set id | id in taken
    {
      if !items[n].Int? {
        return None;
      }
      var id := items[n].n;
      assert Ints(items)[n] == id;
      if id !in input {
        return None;
      }
      if id in seenNow {
        if id !in seen {
          var k :| 0 <= k < n && taken[k] == id;
          assert Ints(items)[k] == id;
        }
        return None;
      }
      seenNow := seenNow + {id};
      taken := taken + [id];
    }
    assert taken == Ints(items);
    ids := Some(taken);
  }

  /** The checks of one group, except for its ids. */
  method ReadGroup(raw: Json, seenLabels: set<string>) returns (group: Option<Pass1Group>)
    ensures group.Some? <==>
      && raw.Obj? && Field(raw, "label").Str? && IsLabel(LabelOf(raw)) && LabelOf(raw) !in seenLabels
      && ExplanationFits(Field(raw, "explanation")) && RulesFit(RulesOf(raw)) && Field(raw, "finding_ids").List?
    ensures group.Some? && GroupShape(raw) ==> group.value.(findingIds := IdsOf(raw)) == GroupOf(raw)
  {
    if !raw.Obj? {
      return None;
    }
    var name := Get(raw.fields, "label");
    if !name.Str? || !IsLabel(name.s) || name.s in seenLabels {
      return None;
    }
    var explanation := Get(raw.fields, "explanation");
    if explanation != Null && !explanation.Str? {
      return None;
    }
    if explanation.Str? && '\0' in explanation.s {
      return None;
    }
    var rules := Get(raw.fields, "match_rules");
    if !Truthy(rules) {
      rules := Obj(map[]);
    }
    if !rules.Obj? {
      return None;
    }
    var prefixes := SanitizeList(Get(rules.fields, "path_prefixes"), SanitizePathPrefix);
    var names := SanitizeList(Get(rules.fields, "pkg_name_exact"), SanitizePkgName);
    var globs := SanitizeList(Get(rules.fields, "pkg_name_glob"), SanitizePkgGlob);
    var purls := SanitizeList(Get(rules.fields, "pkg_purl_pattern"), SanitizePurlPattern);
    if prefixes.None? || names.None? || globs.None? || purls.None? || !Get(raw.fields, "finding_ids").List? {
      return None;
    }
    group := Some(Pass1Group(name.s, if explanation.Str? then Some(explanation.s) else None,
                             prefixes.value, names.value, globs.value, purls.value, []));
  }

  /** `_validate_pass1_response`; `None` stands for `LLMInvalidResponseError`. */
  method ValidatePass1Response(response: map<string, Json>, input: set<int>) returns (result: Option<Pass1Result>)
    ensures result.Some? <==> ResponseFits(response, input)
    ensures result.Some? ==>
      && result.value.groups == GroupsOf(Get(response, "groups").items)
      && result.value.ungroupedFindingIds == Ints(Get(response, "ungrouped").items)
  {
    hide GroupShape, AllIds, Field, Distinct, Labels;
    var groupsRaw, ungroupedRaw := Get(response, "groups"), Get(response, "ungrouped");
    if !groupsRaw.List? || !ungroupedRaw.List? {
      return None;
    }
    var groups := ValidateGroups(groupsRaw.items, input);
    if groups.None? {
      return None;
    }
    var ungrouped: seq<int> := [];
    var seen := set id | id in AllIds(groupsRaw.items);
    for n := 0 to |ungroupedRaw.items|
      invariant ungrouped == Ints(ungroupedRaw.items[..n])
      invariant UngroupedFits(ungroupedRaw.items[..n], input, AllIds(groupsRaw.items))
    {
      var item := ungroupedRaw.items[n];
      if !item.Int? || item.n !in input || item.n in seen {
        return None;
      }
      ungrouped := ungrouped + [item.n];
    }
    assert ungroupedRaw.items[..|ungroupedRaw.items|] == ungroupedRaw.items;
    var missing := input - seen - set id | id in ungrouped;
    if missing != {} {
      NonEmpty(missing);
      var id :| id in missing;
      assert id in input && id !in AllIds(groupsRaw.items) && id !in Ints(ungroupedRaw.items);
      return None;
    }
    forall id | id in input
      ensures id in AllIds(groupsRaw.items) || id in Ints(ungroupedRaw.items)
    {
      assert id !in missing;
    }
    result := Some(Pass1Result(groups.value, ungrouped));
  }

  method ValidateGroups(raws: seq<Json>, input: set<int>) returns (groups: Option<seq<Pass1Group>>)
    ensures groups.Some? <==> GroupsFit(raws, input)
    ensures groups.Some? ==> groups.value == GroupsOf(raws)
  {
    var validated: seq<Pass1Group> := [];
    var seen: set<int> := {};
    var seenLabels: set<string> := {};
    for n := 0 to |raws|
      invariant Read(raws[..n], input, validated, seen, seenLabels)
    {
      hide *;
      assert raws[..n + 1] == raws[..n] + [raws[n]];
      assert raws == raws[..n + 1] + raws[n + 1..];
      GroupsFitPrefix(raws[..n + 1], raws[n + 1..], input);
      ReadFits(raws[..n], input, validated, seen, seenLabels);
      GroupsFitSnoc(raws[..n], raws[n], input);
      GroupShapeParts(raws[n]);
      var group := ReadGroup(raws[n], seenLabels);
      if group.None? {
        return None;
      }
      var ids := TakeIds(Field(raws[n], "finding_ids").items, input, seen);
      if ids.None? {
        return None;
      }
      ReadSnoc(raws[..n], raws[n], input, validated, seen, seenLabels);
      validated := validated + [group.value.(findingIds := ids.value)];
      seen := seen + set id | id in ids.value;
      seenLabels := seenLabels + {group.value.groupLabel};
    }
    assert raws[..|raws|] == raws;
    groups := Some(validated);
  }

  /** What the loop knows after the groups `raws`. */
  ghost predicate Read(raws: seq<Json>, input: set<int>, validated: seq<Pass1Group>, seen: set<int>,
                       seenLabels: set<string>) {
    && GroupsFit(raws, input)
    && validated == GroupsOf(raws)
    && (forall id :: id in seen <==> id in AllIds(raws))
    && (forall l :: l in seenLabels <==> l in Labels(raws))
  }

  lemma ReadFits(raws: seq<Json>, input: set<int>, validated: seq<Pass1Group>, seen: set<int>, seenLabels: set<string>)
    requires Read(raws, input, validated, seen, seenLabels)
    ensures GroupsFit(raws, input)
    ensures forall id :: id in seen <==> id in AllIds(raws)
    ensures forall l :: l in seenLabels <==> l in Labels(raws)
  {}

  lemma ReadSnoc(raws: seq<Json>, raw: Json, input: set<int>, validated: seq<Pass1Group>, seen: set<int>,
                 seenLabels: set<string>)
    requires Read(raws, input, validated, seen, seenLabels) && GroupsFit(raws + [raw], input)
    ensures GroupShape(raw)
    ensures Read(raws + [raw], input, validated + [GroupOf(raw)],
                 seen + (set id | id in IdsOf(raw)), seenLabels + {LabelOf(raw)})
  {
    hide GroupShape, GroupOf, IdsOf, LabelOf;
    var all := raws + [raw];
    assert all[..|raws|] == raws && all[|raws|] == raw;
    assert Labels(all) == Labels(raws) + [LabelOf(raw)];
    assert GroupsOf(all) == GroupsOf(raws) + [GroupOf(raw)];
  }

  lemma GroupShapeParts(raw: Json)
    ensures GroupShape(raw) <==>
      && raw.Obj? && Field(raw, "label").Str? && IsLabel(LabelOf(raw))
      && ExplanationFits(Field(raw, "explanation")) && RulesFit(RulesOf(raw))
      && Field(raw, "finding_ids").List? && AllInts(Field(raw, "finding_ids").items)
    ensures GroupShape(raw) ==> IdsOf(raw) == Ints(Field(raw, "finding_ids").items)
  {}

  /** One more group against the groups before it. */
  lemma GroupsFitSnoc(before: seq<Json>, raw: Json, input: set<int>)
    requires GroupsFit(before, input)
    ensures
      var ids := IdsOf(raw);
      GroupsFit(before + [raw], input) <==>
        && GroupShape(raw) && LabelOf(raw) !in Labels(before)
        && Distinct(ids) && forall k :: 0 <= k < |ids| ==> ids[k] in input && ids[k] !in AllIds(before)
  {
    hide GroupShape, IdsOf, LabelOf;
    var all := before + [raw];
    assert all[..|before|] == before && all[|before|] == raw;
    assert AllIds(all) == AllIds(before) + IdsOf(raw);
    assert Labels(all) == Labels(before) + [LabelOf(raw)];
    DistinctConcat(AllIds(before), IdsOf(raw));
    DistinctConcat(Labels(before), [LabelOf(raw)]);
    assert [LabelOf(raw)][0] == LabelOf(raw) && Distinct([LabelOf(raw)]);
    assert (forall k :: 0 <= k < |all| ==> GroupShape(all[k])) <==> GroupShape(raw) by {
      assert forall k :: 0 <= k < |before| ==> all[k] == before[k];
    }
    InputConcat(AllIds(before), IdsOf(raw), input);
  }

  lemma InputConcat(a: seq<int>, b: seq<int>, input: set<int>)
    ensures (forall k :: 0 <= k < |a + b| ==> (a + b)[k] in input)
       <==> (forall k :: 0 <= k < |a| ==> a[k] in input) && (forall k :: 0 <= k < |b| ==> b[k] in input)
  {
    assert forall k :: 0 <= k < |a| ==> (a + b)[k] == a[k];
    assert forall k :: 0 <= k < |b| ==> (a + b)[|a| + k] == b[k];
  }

  lemma {:induction false} GroupsFitPrefix(a: seq<Json>, b: seq<Json>, input: set<int>)
    ensures GroupsFit(a + b, input) ==> GroupsFit(a, input)
    decreases |b|
  {
    hide GroupShape, IdsOf, LabelOf, Labels, AllIds;
    if b == [] {
      assert a + b == a;
    } else {
      assert a + b == (a + b[..|b| - 1]) + [b[|b| - 1]];
      GroupsFitLast(a + b[..|b| - 1], b[|b| - 1], input);
      GroupsFitPrefix(a, b[..|b| - 1], input);
    }
  }

  lemma GroupsFitLast(before: seq<Json>, raw: Json, input: set<int>)
    ensures GroupsFit(before + [raw], input) ==> GroupsFit(before, input)
  {
    hide GroupShape, IdsOf, LabelOf;
    var all := before + [raw];
    assert all[..|before|] == before && all[|before|] == raw;
    assert AllIds(all) == AllIds(before) + IdsOf(raw);
    assert Labels(all) == Labels(before) + [LabelOf(raw)];
    DistinctConcat(AllIds(before), IdsOf(raw));
    DistinctConcat(Labels(before), [LabelOf(raw)]);
    InputConcat(AllIds(before), IdsOf(raw), input);
    assert forall k :: 0 <= k < |before| ==> all[k] == before[k];
  }

  // ------------------------------------------------------------------ what acceptance means

  /**
   * An accepted response is a partition of the input: a finding sits at exactly one place of
   * exactly one group, or it is ungrouped (possibly more than once), never both and never neither.
   */
  lemma AcceptedIsPartition(response: map<string, Json>, input: set<int>, id: int)
    requires ResponseFits(response, input)
    ensures
      var groups, ungrouped := Get(response, "groups").items, Ints(Get(response, "ungrouped").items);
      && (id in input <==> id in AllIds(groups) || id in ungrouped)
      && !(id in AllIds(groups) && id in ungrouped)
      && (id in AllIds(groups) <==> exists g, k :: IsPlace(groups, id, g, k))
      && forall g, k, h, l :: IsPlace(groups, id, g, k) && IsPlace(groups, id, h, l) ==> g == h && k == l
  {
    hide GroupShape, IdsOf;
    var groups := Get(response, "groups").items;
    PlacesAreUnique(groups, id);
    assert forall k :: 0 <= k < |AllIds(groups)| ==> AllIds(groups)[k] in input;
    var items := Get(response, "ungrouped").items;
    assert forall k :: 0 <= k < |items| ==> Ints(items)[k] == items[k].n;
  }

  predicate IsPlace(groups: seq<Json>, id: int, g: int, k: int) {
    0 <= g < |groups| && 0 <= k < |IdsOf(groups[g])| && IdsOf(groups[g])[k] == id
  }

  lemma {:induction false} PlacesAreUnique(groups: seq<Json>, id: int)
    ensures id in AllIds(groups) <==> exists g, k :: IsPlace(groups, id, g, k)
    ensures Distinct(AllIds(groups)) ==>
      forall g, k, h, l :: IsPlace(groups, id, g, k) && IsPlace(groups, id, h, l) ==> g == h && k == l
  {
    hide IdsOf;
    if groups != [] {
      var before, last := groups[..|groups| - 1], groups[|groups| - 1];
      PlacesAreUnique(before, id);
      DistinctConcat(AllIds(before), IdsOf(last));
      assert forall g, k :: g < |before| ==> (IsPlace(groups, id, g, k) <==> IsPlace(before, id, g, k));
      assert id in IdsOf(last) <==> exists k :: IsPlace(groups, id, |before|, k) by {
        if id in IdsOf(last) {
          var k :| 0 <= k < |IdsOf(last)| && IdsOf(last)[k] == id;
          assert IsPlace(groups, id, |before|, k);
        }
      }
    }
  }

  /** An accepted response names as many ids as there are findings exactly when none is ungrouped twice. */
  lemma AcceptedCountsIff(response: map<string, Json>, input: set<int>)
    requires ResponseFits(response, input)
    ensures
      var grouped, ungrouped := AllIds(Get(response, "groups").items), Ints(Get(response, "ungrouped").items);
      |grouped| + |ungrouped| == |input| <==> Distinct(ungrouped)
  {
    hide AllIds, GroupShape, Labels;
    var grouped, ungrouped := AllIds(Get(response, "groups").items), Ints(Get(response, "ungrouped").items);
    MembersSize(grouped);
    MembersSize(ungrouped);
    forall id
      ensures id in input <==> id in Members(grouped) + Members(ungrouped)
      ensures !(id in Members(grouped) && id in Members(ungrouped))
    {
      AcceptedIsPartition(response, input, id);
    }
    assert input == Members(grouped) + Members(ungrouped);
    assert |Members(grouped) + Members(ungrouped)| == |Members(grouped)| + |Members(ungrouped)|;
  }
}
