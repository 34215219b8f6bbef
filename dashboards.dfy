/**
 * The dashboard page's chart data: incidents counted into fixed-order status and priority
 * buckets, and the resolved or closed incidents selected for the resolution chart.
 */
module Dashboards {
  import Text
  import Sequences
  import IncidentsStore

  /**
   * An incident as the page receives it from `GET /api/incidents`: status and priority are
   * plain strings, so values outside the four known names can reach the counts.
   */
  datatype ChartIncident = ChartIncident(id: int, title: string, status: string, priority: string)

  /** One bar or slice of a chart. */
  datatype Bucket = Bucket(name: string, value: nat, color: string)

  /** One row of the resolution chart, without the hours figure. */
  datatype ResolutionEntry = ResolutionEntry(title: string, priority: string)

  /** Which string field of an incident a count looks at. */
  datatype Attribute = StatusAttr | PriorityAttr

  function AttributeOf(inc: ChartIncident, a: Attribute): string {
    match a
    case StatusAttr => inc.status
    case PriorityAttr => inc.priority
  }

  /** The JSON form of a stored incident, as far as the charts read it. */
  function FromStore(inc: IncidentsStore.Incident): (r: ChartIncident)
    ensures r.status in {"open", "in_progress", "resolved", "closed"}
    ensures r.priority in {"critical", "high", "medium", "low"}
  {
    ChartIncident(inc.id, inc.title, IncidentsStore.StatusName(inc.status), IncidentsStore.PriorityName(inc.priority))
  }

  /** The number of incidents whose attribute `a` is exactly `key`. */
  function CountWith(s: seq<ChartIncident>, a: Attribute, key: string): (n: nat)
    ensures n <= |s|
  {
    if s == [] then 0
    else CountWith(s[..|s| - 1], a, key) + (if AttributeOf(s[|s| - 1], a) == key then 1 else 0)
  }

  /**
   * Counts into an object with exactly the four keys, skipping any value that is not a key:
   * afterwards each key holds the number of incidents carrying it.
   */
  method CountKeys(incidents: seq<ChartIncident>, a: Attribute, keys: set<string>) returns (counts: map<string, nat>)
    ensures counts.Keys == keys
    ensures forall k :: k in counts ==> counts[k] == CountWith(incidents, a, k)
  {
    counts := map k | k in keys :: 0;
    for i := 0 to |incidents|
      invariant counts.Keys == keys
      invariant forall k :: k in counts ==> counts[k] == CountWith(incidents[..i], a, k)
    {
      assert incidents[..i + 1][..i] == incidents[..i];
      var key := AttributeOf(incidents[i], a);
      if key in counts {
        counts := counts[key := counts[key] + 1];
      }
    }
    assert incidents[..|incidents|] == incidents;
  }

  /** The status chart's buckets: name, count of exact matches, and colour, in display order. */
  function StatusBuckets(incidents: seq<ChartIncident>): (r: seq<Bucket>)
    ensures |r| == 4 && [r[0].name, r[1].name, r[2].name, r[3].name] == ["Open", "In Progress", "Resolved", "Closed"]
    ensures forall i :: 0 <= i < |r| ==> r[i].value <= |incidents|
  {
    [
      Bucket("Open", CountWith(incidents, StatusAttr, "open"), "#3b82f6"),
      Bucket("In Progress", CountWith(incidents, StatusAttr, "in_progress"), "#eab308"),
      Bucket("Resolved", CountWith(incidents, StatusAttr, "resolved"), "#22c55e"),
      Bucket("Closed", CountWith(incidents, StatusAttr, "closed"), "#6b7280")]
  }

  /** The priority chart's buckets: name, count of exact matches, and colour, in display order. */
  function PriorityBuckets(incidents: seq<ChartIncident>): (r: seq<Bucket>)
    ensures |r| == 4 && [r[0].name, r[1].name, r[2].name, r[3].name] == ["Critical", "High", "Medium", "Low"]
    ensures forall i :: 0 <= i < |r| ==> r[i].value <= |incidents|
  {
    [
      Bucket("Critical", CountWith(incidents, PriorityAttr, "critical"), "#ef4444"),
      Bucket("High", CountWith(incidents, PriorityAttr, "high"), "#f97316"),
      Bucket("Medium", CountWith(incidents, PriorityAttr, "medium"), "#3b82f6"),
      Bucket("Low", CountWith(incidents, PriorityAttr, "low"), "#6b7280")]
  }

  /** `incidentsByStatus`: four buckets, always in the order Open, In Progress, Resolved, Closed. */
  method IncidentsByStatus(incidents: seq<ChartIncident>) returns (r: seq<Bucket>)
    ensures r == StatusBuckets(incidents)
  {
    var counts := CountKeys(incidents, StatusAttr, {"open", "in_progress", "resolved", "closed"});
    r := [
      Bucket("Open", counts["open"], "#3b82f6"),
      Bucket("In Progress", counts["in_progress"], "#eab308"),
      Bucket("Resolved", counts["resolved"], "#22c55e"),
      Bucket("Closed", counts["closed"], "#6b7280")];
  }

  /** `incidentsByPriority`: four buckets, always in the order Critical, High, Medium, Low. */
  method IncidentsByPriority(incidents: seq<ChartIncident>) returns (r: seq<Bucket>)
    ensures r == PriorityBuckets(incidents)
  {
    var counts := CountKeys(incidents, PriorityAttr, {"critical", "high", "medium", "low"});
    r := [
      Bucket("Critical", counts["critical"], "#ef4444"),
      Bucket("High", counts["high"], "#f97316"),
      Bucket("Medium", counts["medium"], "#3b82f6"),
      Bucket("Low", counts["low"], "#6b7280")];
  }

  /** The total of the four buckets of a chart. */
  function BucketSum(r: seq<Bucket>): int
    requires |r| == 4
  {
    r[0].value + r[1].value + r[2].value + r[3].value
  }

  /**
   * Four distinct keys count each incident at most once, and every incident exactly when each
   * carries one of them.
   */
  lemma {:induction false} FourKeysSum(s: seq<ChartIncident>, a: Attribute, k1: string, k2: string, k3: string, k4: string)
    requires k1 != k2 && k1 != k3 && k1 != k4 && k2 != k3 && k2 != k4 && k3 != k4
    ensures CountWith(s, a, k1) + CountWith(s, a, k2) + CountWith(s, a, k3) + CountWith(s, a, k4) <= |s|
    ensures CountWith(s, a, k1) + CountWith(s, a, k2) + CountWith(s, a, k3) + CountWith(s, a, k4) == |s| <==>
            forall i :: 0 <= i < |s| ==> AttributeOf(s[i], a) in {k1, k2, k3, k4}
  {
    if s != [] {
      var init := s[..|s| - 1];
      assert forall i :: 0 <= i < |init| ==> init[i] == s[i];
      FourKeysSum(init, a, k1, k2, k3, k4);
      assert CountWith(s, a, k1) + CountWith(s, a, k2) + CountWith(s, a, k3) + CountWith(s, a, k4) ==
             CountWith(init, a, k1) + CountWith(init, a, k2) + CountWith(init, a, k3) + CountWith(init, a, k4)
             + (if AttributeOf(s[|s| - 1], a) in {k1, k2, k3, k4} then 1 else 0);
    }
  }

  /**
   * The status buckets add up to at most the number of incidents, and to exactly that number
   * when every status is one of the four known names.
   */
  lemma StatusBucketsSum(incidents: seq<ChartIncident>)
    ensures BucketSum(StatusBuckets(incidents)) <= |incidents|
    ensures BucketSum(StatusBuckets(incidents)) == |incidents| <==>
            forall i :: 0 <= i < |incidents| ==> incidents[i].status in {"open", "in_progress", "resolved", "closed"}
  {
    FourKeysSum(incidents, StatusAttr, "open", "in_progress", "resolved", "closed");
  }

  /**
   * The priority buckets add up to at most the number of incidents, and to exactly that number
   * when every priority is one of the four known names.
   */
  lemma PriorityBucketsSum(incidents: seq<ChartIncident>)
    ensures BucketSum(PriorityBuckets(incidents)) <= |incidents|
    ensures BucketSum(PriorityBuckets(incidents)) == |incidents| <==>
            forall i :: 0 <= i < |incidents| ==> incidents[i].priority in {"critical", "high", "medium", "low"}
  {
    FourKeysSum(incidents, PriorityAttr, "critical", "high", "medium", "low");
  }

  /** Incidents served by the store are all counted: the buckets add up to the list's length. */
  lemma StoredIncidentsAllCounted(stored: seq<IncidentsStore.Incident>, incidents: seq<ChartIncident>)
    requires |incidents| == |stored|
    requires forall i :: 0 <= i < |stored| ==> incidents[i] == FromStore(stored[i])
    ensures CountWith(incidents, StatusAttr, "open") + CountWith(incidents, StatusAttr, "in_progress")
            + CountWith(incidents, StatusAttr, "resolved") + CountWith(incidents, StatusAttr, "closed") == |incidents|
    ensures CountWith(incidents, PriorityAttr, "critical") + CountWith(incidents, PriorityAttr, "high")
            + CountWith(incidents, PriorityAttr, "medium") + CountWith(incidents, PriorityAttr, "low") == |incidents|
  {
    FourKeysSum(incidents, StatusAttr, "open", "in_progress", "resolved", "closed");
    FourKeysSum(incidents, PriorityAttr, "critical", "high", "medium", "low");
  }

  predicate IsResolvedOrClosed(inc: ChartIncident) {
    inc.status == "resolved" || inc.status == "closed"
  }

  /** The selection of `resolutionTimeData`: resolved or closed incidents, in their order. */
  function ResolvedOrClosed(s: seq<ChartIncident>): (r: seq<ChartIncident>)
    ensures Sequences.IsSubsequence(r, s)
    ensures forall x :: x in r <==> x in s && IsResolvedOrClosed(x)
    ensures |r| == CountWith(s, StatusAttr, "resolved") + CountWith(s, StatusAttr, "closed")
  {
    if s == [] then []
    else
      var init := ResolvedOrClosed(s[..|s| - 1]);
      if IsResolvedOrClosed(s[|s| - 1]) then init + [s[|s| - 1]] else init
  }

  /** The chart label: the first twenty characters of the title (fewer if it is shorter) and `...`. */
  function TitleLabel(title: string): (shown: string)
    ensures |shown| == (if |title| < 20 then |title| else 20) + 3
    ensures shown[..|shown| - 3] <= title
    ensures shown[|shown| - 3..] == "..."
  {
    Text.Take(title, 20) + "..."
  }

  /** `resolutionTimeData` without the hours: one labelled entry per selected incident. */
  function ResolutionTimeData(incidents: seq<ChartIncident>): (r: seq<ResolutionEntry>)
    ensures |r| == |ResolvedOrClosed(incidents)|
    ensures forall i :: 0 <= i < |r| ==>
              r[i] == ResolutionEntry(TitleLabel(ResolvedOrClosed(incidents)[i].title), ResolvedOrClosed(incidents)[i].priority)
  {
    var selected := ResolvedOrClosed(incidents);
    seq(|selected|, i requires 0 <= i < |selected| => ResolutionEntry(TitleLabel(selected[i].title), selected[i].priority))
  }

  /**
   * The resolution chart has one row per incident whose status is resolved or closed, so as many
   * rows as the two matching status buckets hold together.
   */
  lemma ResolutionRowsMatchBuckets(incidents: seq<ChartIncident>)
    ensures |ResolutionTimeData(incidents)| == StatusBuckets(incidents)[2].value + StatusBuckets(incidents)[3].value
  {
  }
}
