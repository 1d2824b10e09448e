/** The orders a reader of the bucket view is promised, on the columns themselves. */
module BucketOrder {
  import opened Models
  import opened Sorting

  /** `a` comes before `b` in a dictionary: it ends first, or has the smaller character where they part. */
  ghost predicate TextAscends(a: string, b: string) {
    || (|a| < |b| && a == b[..|a|])
    || exists k :: PartsAt(a, b, k)
  }

  predicate PartsAt(a: string, b: string, k: int) {
    0 <= k < |a| && k < |b| && a[..k] == b[..k] && a[k] < b[k]
  }

  lemma {:induction false} StringLeqSays(a: string, b: string)
    ensures StringLeq(a, b) <==> a == b || TextAscends(a, b)
  {
    if a == "" || b == "" {
      if b != "" {
        assert a == b[..|a|];
      }
    } else if a[0] != b[0] {
      assert PartsAt(a, b, 0) <==> a[0] < b[0];
      assert forall k :: PartsAt(a, b, k) && k > 0 ==> a[..k][0] == b[..k][0];
    } else {
      StringLeqSays(a[1..], b[1..]);
      TailAscends(a, b);
      assert a == [a[0]] + a[1..] && b == [b[0]] + b[1..];
    }
  }

  lemma TailAscends(a: string, b: string)
    requires a != "" && b != "" && a[0] == b[0]
    ensures TextAscends(a, b) <==> TextAscends(a[1..], b[1..])
  {
    var s, t := a[1..], b[1..];
    if |a| < |b| {
      assert a == b[..|a|] <==> s == t[..|s|] by {
        assert a == [a[0]] + s && b[..|a|] == [b[0]] + t[..|s|];
      }
    }
    if exists k :: PartsAt(a, b, k) {
      var k :| PartsAt(a, b, k);
      assert s[..k - 1] == a[..k][1..] && t[..k - 1] == b[..k][1..];
      assert PartsAt(s, t, k - 1);
    }
    if exists k :: PartsAt(s, t, k) {
      var k :| PartsAt(s, t, k);
      assert a[..k + 1] == [a[0]] + s[..k] && b[..k + 1] == [b[0]] + t[..k];
      assert PartsAt(a, b, k + 1);
    }
  }

  /** The higher score first, a missing one last. */
  predicate ScoreBefore(x: Option<real>, y: Option<real>) {
    x.Some? && (y.None? || x.value > y.value)
  }

  /** KEV first, then EPSS and CVSS descending, then the older finding, then the identifier. */
  ghost predicate MayPrecede(x: Finding, y: Finding) {
    if x.facts.isKev != y.facts.isKev then x.facts.isKev
    else if x.facts.epssScore != y.facts.epssScore then ScoreBefore(x.facts.epssScore, y.facts.epssScore)
    else if x.facts.cvssScore != y.facts.cvssScore then ScoreBefore(x.facts.cvssScore, y.facts.cvssScore)
    else if x.firstSeenAt != y.firstSeenAt then x.firstSeenAt < y.firstSeenAt
    else x.key.identifierKey == y.key.identifierKey || TextAscends(x.key.identifierKey, y.key.identifierKey)
  }

  /** Where a band stands in the header list: 0 comes first. */
  function Place(band: string): nat {
    if band == "escalate" then 0
    else if band == "act" then 1
    else if band == "mitigate" then 2
    else if band == "pending" then 3
    else if band == "unknown" then 4
    else if band == "monitor" then 5
    else if band == "noise" then 6
    else 7
  }
}
