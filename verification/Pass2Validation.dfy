/** The validator of the second model pass: one risk band per group. */
module Pass2Validation {
  import opened Models
  import opened Json
  import opened Sequences
  import opened Pass1Validation

  const MAX_REASON_LEN := 8192

  datatype Pass2Evaluation = Pass2Evaluation(
    groupLabel: string,
    riskBand: string,
    reason: string,
    worstFindingId: Option<int>)

  /** `Invalid` is `LLMInvalidResponseError`; `Crash` is the TypeError of hashing a list or an object. */
  datatype Verdict = Valid(evaluations: seq<Pass2Evaluation>) | Invalid | Crash

  predicate ValidBand(band: string) {
    band in {"escalate", "act", "mitigate", "monitor", "noise"}
  }

  /** The legacy band `mitigate` reads as `escalate`. */
  function Mapped(band: string): string {
    if band == "mitigate" then "escalate" else band
  }

  function GroupLabelOf(raw: Json): string {
    if Field(raw, "group_label").Str? then Field(raw, "group_label").s else ""
  }

  /** The finding ids that the prompt showed, by group label. */
  type Shown = map<string, set<int>>

  predicate BandFits(band: Json, fixLane: Option<FixLane>) {
    && band.Str? && ValidBand(band.s)
    && !(fixLane == Some(Mitigate) && band.s == "act")
  }

  predicate WorstFits(worst: Json, shown: set<int>) {
    worst == Null || (worst.Int? && worst.n in shown)
  }

  /** What an entry must be, whatever the other entries are. */
  predicate EntryFits(raw: Json, shown: Shown, fixLane: Option<FixLane>) {
    && raw.Obj?
    && Field(raw, "group_label").Str? && GroupLabelOf(raw) in shown
    && BandFits(Field(raw, "risk_band"), fixLane)
    && Field(raw, "reason").Str? && '\0' !in Field(raw, "reason").s && |Field(raw, "reason").s| <= MAX_REASON_LEN
    && WorstFits(Field(raw, "worst_finding_id"), shown[GroupLabelOf(raw)])
  }

  /** An entry that gets as far as the lookup of its band, and fails there. */
  predicate EntryCrashes(raw: Json, shown: Shown) {
    && raw.Obj?
    && Field(raw, "group_label").Str? && GroupLabelOf(raw) in shown
    && !Hashable(Field(raw, "risk_band"))
  }

  function EvaluationOf(raw: Json, shown: Shown, fixLane: Option<FixLane>): Pass2Evaluation
    requires EntryFits(raw, shown, fixLane)
  {
    var worst := Field(raw, "worst_finding_id");
    Pass2Evaluation(GroupLabelOf(raw), Mapped(Field(raw, "risk_band").s), Field(raw, "reason").s,
                    if worst.Int? then Some(worst.n) else None)
  }

  function GroupLabels(raws: seq<Json>): seq<string> {
    seq(|raws|, k requires 0 <= k < |raws| => GroupLabelOf(raws[k]))
  }

  predicate EntriesFit(raws: seq<Json>, shown: Shown, fixLane: Option<FixLane>) {
    && (forall k :: 0 <= k < |raws| ==> EntryFits(raws[k], shown, fixLane))
    && Distinct(GroupLabels(raws))
  }

  /** The first entry that is not accepted has a fresh label and an unhashable band. */
  predicate CrashesAt(raws: seq<Json>, n: int, shown: Shown, fixLane: Option<FixLane>) {
    && 0 <= n < |raws|
    && EntriesFit(raws[..n], shown, fixLane)
    && EntryCrashes(raws[n], shown)
    && GroupLabelOf(raws[n]) !in GroupLabels(raws[..n])
  }

  function EvaluationsOf(raws: seq<Json>, shown: Shown, fixLane: Option<FixLane>): seq<Pass2Evaluation>
    requires EntriesFit(raws, shown, fixLane)
  {
    seq(|raws|, k requires 0 <= k < |raws| => EvaluationOf(raws[k], shown, fixLane))
  }

  /** The checks of one entry. */
  method ReadEntry(raw: Json, shown: Shown, seenLabels: set<string>, fixLane: Option<FixLane>)
    returns (verdict: Verdict)
    ensures verdict.Valid? <==> EntryFits(raw, shown, fixLane) && GroupLabelOf(raw) !in seenLabels
    ensures verdict.Valid? ==> verdict.evaluations == [EvaluationOf(raw, shown, fixLane)]
    ensures verdict.Crash? <==> EntryCrashes(raw, shown) && GroupLabelOf(raw) !in seenLabels
  {
    if !raw.Obj? {
      return Invalid;
    }
    var name := Get(raw.fields, "group_label");
    if !name.Str? || name.s !in shown || name.s in seenLabels {
      return Invalid;
    }
    var band := Get(raw.fields, "risk_band");
    if !Hashable(band) {
      return Crash;
    }
    if !band.Str? || !ValidBand(band.s) {
      return Invalid;
    }
    var riskBand := band.s;
    if riskBand == "mitigate" {
      riskBand := "escalate";
    }
    if fixLane == Some(Mitigate) && riskBand == "act" {
      return Invalid;
    }
    var reason := Get(raw.fields, "reason");
    if !reason.Str? || '\0' in reason.s || |reason.s| > MAX_REASON_LEN {
      return Invalid;
    }
    var worst := Get(raw.fields, "worst_finding_id");
    var worstId: Option<int>;
    if worst == Null {
      worstId := None;
    } else if worst.Int? {
      if worst.n !in shown[name.s] {
        return Invalid;
      }
      worstId := Some(worst.n);
    } else {
      return Invalid;
    }
    verdict := Valid([Pass2Evaluation(name.s, riskBand, reason.s, worstId)]);
  }

  /** `_validate_pass2_response`. */
  method ValidatePass2Response(response: map<string, Json>, shown: Shown, fixLane: Option<FixLane>)
    returns (verdict: Verdict)
    ensures verdict.Valid? <==>
              && Get(response, "evaluations").List?
              && EntriesFit(Get(response, "evaluations").items, shown, fixLane)
    ensures verdict.Valid? ==> verdict.evaluations == EvaluationsOf(Get(response, "evaluations").items, shown, fixLane)
    ensures verdict.Crash? <==>
              && Get(response, "evaluations").List?
              && exists n :: CrashesAt(Get(response, "evaluations").items, n, shown, fixLane)
  {
    var evalsRaw := Get(response, "evaluations");
    if !evalsRaw.List? {
      return Invalid;
    }
    var raws := evalsRaw.items;
    var validated: seq<Pass2Evaluation> := [];
    var seenLabels: set<string> := {};
    for n := 0 to |raws|
      invariant EntriesFit(raws[..n], shown, fixLane)
      invariant validated == EvaluationsOf(raws[..n], shown, fixLane)
      invariant forall l :: l in seenLabels <==> l in GroupLabels(raws[..n])
    {
      hide EntryFits, EntryCrashes, EvaluationOf, GroupLabels, Distinct, CrashesAt;
      var entry := ReadEntry(raws[n], shown, seenLabels, fixLane);
      OutcomeAt(raws, n, shown, fixLane);
      if !entry.Valid? {
        return entry;
      }
      EntriesSnoc(raws, n, shown, fixLane);
      validated := validated + entry.evaluations;
      seenLabels := seenLabels + {entry.evaluations[0].groupLabel};
    }
    assert raws[..|raws|] == raws;
    NoCrash(raws, shown, fixLane);
    verdict := Valid(validated);
  }

  lemma EntriesSnoc(raws: seq<Json>, n: nat, shown: Shown, fixLane: Option<FixLane>)
    requires n < |raws| && EntriesFit(raws[..n], shown, fixLane)
    requires EntryFits(raws[n], shown, fixLane) && GroupLabelOf(raws[n]) !in GroupLabels(raws[..n])
    ensures EntriesFit(raws[..n + 1], shown, fixLane)
    ensures EvaluationsOf(raws[..n + 1], shown, fixLane)
         == EvaluationsOf(raws[..n], shown, fixLane) + [EvaluationOf(raws[n], shown, fixLane)]
    ensures EvaluationOf(raws[n], shown, fixLane).groupLabel == GroupLabelOf(raws[n])
    ensures GroupLabels(raws[..n + 1]) == GroupLabels(raws[..n]) + [GroupLabelOf(raws[n])]
  {
    hide EntryFits;
    assert GroupLabels(raws[..n + 1]) == GroupLabels(raws[..n]) + [GroupLabelOf(raws[n])];
    DistinctConcat(GroupLabels(raws[..n]), [GroupLabelOf(raws[n])]);
    assert [GroupLabelOf(raws[n])][0] == GroupLabelOf(raws[n]) && Distinct([GroupLabelOf(raws[n])]);
    assert forall k :: 0 <= k < n ==> raws[..n + 1][k] == raws[..n][k];
  }

  /** The first entry that is not accepted decides the outcome of the list. */
  lemma OutcomeAt(raws: seq<Json>, n: nat, shown: Shown, fixLane: Option<FixLane>)
    requires n < |raws| && EntriesFit(raws[..n], shown, fixLane)
    ensures
      var fits := EntryFits(raws[n], shown, fixLane) && GroupLabelOf(raws[n]) !in GroupLabels(raws[..n]);
      && (EntriesFit(raws, shown, fixLane) ==> fits)
      && (!fits ==>
            ((exists m :: CrashesAt(raws, m, shown, fixLane)) <==>
             (EntryCrashes(raws[n], shown) && GroupLabelOf(raws[n]) !in GroupLabels(raws[..n]))))
  {
    var fits := EntryFits(raws[n], shown, fixLane) && GroupLabelOf(raws[n]) !in GroupLabels(raws[..n]);
    PrefixEntries(raws, n, shown, fixLane);
    hide EntryFits, EntryCrashes, Distinct;
    forall m | CrashesAt(raws, m, shown, fixLane)
      ensures m < n ==> EntryFits(raws[m], shown, fixLane)
      ensures m > n ==> fits
    {
      if m < n {
        assert raws[..n][m] == raws[m];
      } else if m > n {
        PrefixEntries(raws[..m], n, shown, fixLane);
        assert raws[..m][..n] == raws[..n] && raws[..m][n] == raws[n];
      }
    }
    forall m | 0 <= m < |raws| && EntryFits(raws[m], shown, fixLane)
      ensures !EntryCrashes(raws[m], shown)
    {
      FitsIsNoCrash(raws[m], shown, fixLane);
    }
    if EntryCrashes(raws[n], shown) && GroupLabelOf(raws[n]) !in GroupLabels(raws[..n]) {
      assert CrashesAt(raws, n, shown, fixLane);
    }
  }

  lemma PrefixEntries(raws: seq<Json>, n: nat, shown: Shown, fixLane: Option<FixLane>)
    requires n < |raws|
    ensures EntriesFit(raws, shown, fixLane) ==>
              EntryFits(raws[n], shown, fixLane) && GroupLabelOf(raws[n]) !in GroupLabels(raws[..n])
  {
    hide EntryFits, GroupLabelOf;
    if EntriesFit(raws, shown, fixLane) {
      forall k | 0 <= k < n
        ensures GroupLabels(raws[..n])[k] != GroupLabelOf(raws[n])
      {
        assert GroupLabels(raws)[k] != GroupLabels(raws)[n];
      }
    }
  }

  lemma FitsIsNoCrash(raw: Json, shown: Shown, fixLane: Option<FixLane>)
    ensures EntryFits(raw, shown, fixLane) ==> !EntryCrashes(raw, shown)
  {}

  lemma NoCrash(raws: seq<Json>, shown: Shown, fixLane: Option<FixLane>)
    requires EntriesFit(raws, shown, fixLane)
    ensures !exists n :: CrashesAt(raws, n, shown, fixLane)
  {
    hide EntryFits, EntryCrashes, Distinct;
    forall n | 0 <= n < |raws|
      ensures !CrashesAt(raws, n, shown, fixLane)
    {
      FitsIsNoCrash(raws[n], shown, fixLane);
    }
  }

  /**
   * What the caller gets: one evaluation per label at most, a band that this lane allows and that
   * is never the legacy one, and a worst finding that the model has seen.
   */
  lemma AcceptedEvaluations(raws: seq<Json>, shown: Shown, fixLane: Option<FixLane>)
    requires EntriesFit(raws, shown, fixLane)
    ensures
      var evaluations := EvaluationsOf(raws, shown, fixLane);
      && (forall i, j :: 0 <= i < j < |evaluations| ==> evaluations[i].groupLabel != evaluations[j].groupLabel)
      && forall k :: 0 <= k < |evaluations| ==>
           var e := evaluations[k];
           && e.groupLabel in shown
           && e.riskBand in {"escalate", "act", "monitor", "noise"}
           && (fixLane == Some(Mitigate) ==> e.riskBand != "act")
           && (e.worstFindingId.Some? ==> e.worstFindingId.value in shown[e.groupLabel])
           && |e.reason| <= MAX_REASON_LEN && '\0' !in e.reason
  {
    var evaluations := EvaluationsOf(raws, shown, fixLane);
    forall i, j | 0 <= i < j < |evaluations|
      ensures evaluations[i].groupLabel != evaluations[j].groupLabel
    {
      hide EntryFits;
      assert GroupLabels(raws)[i] != GroupLabels(raws)[j];
    }
    forall k | 0 <= k < |evaluations|
      ensures evaluations[k].riskBand in {"escalate", "act", "monitor", "noise"}
      ensures fixLane == Some(Mitigate) ==> evaluations[k].riskBand != "act"
    {
      assert EntryFits(raws[k], shown, fixLane);
      MappedBand(Field(raws[k], "risk_band").s);
    }
  }

  lemma MappedBand(band: string)
    requires ValidBand(band)
    ensures Mapped(band) in {"escalate", "act", "monitor", "noise"}
    ensures Mapped(band) == "act" <==> band == "act"
  {}
}
