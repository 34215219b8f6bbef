/**
 * The shared in-memory incident store: an ordered list of incident records and
 * the counter that hands out their ids.
 */
module IncidentsStore {
  import opened Wrappers
  import Sequences

  /** A point in time, in milliseconds since the epoch (the store keeps it as an ISO-8601 string). */
  type Millis = int

  datatype Status = Open | InProgress | Resolved | Closed

  datatype Priority = Low | Medium | High | Critical

  /** The string the application uses for each status. */
  function StatusName(s: Status): string {
    match s
    case Open => "open"
    case InProgress => "in_progress"
    case Resolved => "resolved"
    case Closed => "closed"
  }

  /** The string the application uses for each priority. */
  function PriorityName(p: Priority): string {
    match p
    case Low => "low"
    case Medium => "medium"
    case High => "high"
    case Critical => "critical"
  }

  datatype SourceComponent = SourceComponent(name: string, contributionStartTime: Millis, contributionEndTime: Millis)

  datatype Incident = Incident(
    id: int,
    title: string,
    description: string,
    status: Status,
    priority: Priority,
    sourceComponents: seq<SourceComponent>,
    incidentStartTime: Millis,
    incidentEndTime: Option<Millis>,   // None is `null`: the incident is ongoing
    createdAt: Millis,
    updatedAt: Millis)

  /**
   * The partial record `updateIncident` merges into an incident: `None` leaves a field as it is.
   * `incidentEndTime` is itself nullable, so `Some(None)` sets it to `null`.
   */
  datatype IncidentUpdate = IncidentUpdate(
    title: Option<string>,
    description: Option<string>,
    status: Option<Status>,
    priority: Option<Priority>,
    sourceComponents: Option<seq<SourceComponent>>,
    incidentStartTime: Option<Millis>,
    incidentEndTime: Option<Option<Millis>>)

  const NoChanges := IncidentUpdate(None, None, None, None, None, None, None)

  /** No two records share an id. */
  predicate IdsDistinct(s: seq<Incident>) {
    forall i, j :: 0 <= i < j < |s| ==> s[i].id != s[j].id
  }

  /** `incidents.findIndex(i => i.id === id)`: the first position holding `id`, or -1. */
  function IndexOfId(s: seq<Incident>, id: int): (k: int)
    ensures -1 <= k < |s|
    ensures k == -1 ==> forall j :: 0 <= j < |s| ==> s[j].id != id
    ensures 0 <= k ==> s[k].id == id && forall j :: 0 <= j < k ==> s[j].id != id
  {
    if s == [] then -1
    else if s[0].id == id then 0
    else
      var k := IndexOfId(s[1..], id);
      if k == -1 then -1 else k + 1
  }

  /** `incidents.find(i => i.id === id) || null`. */
  function Find(s: seq<Incident>, id: int): (r: Option<Incident>)
    ensures r.None? <==> forall j :: 0 <= j < |s| ==> s[j].id != id
    ensures r.Some? ==> r.value in s && r.value.id == id
    ensures r.Some? ==> r.value == s[IndexOfId(s, id)]
  {
    var k := IndexOfId(s, id);
    if k < 0 then None else Some(s[k])
  }

  /** The lookup only looks at ids: two lists with the same ids in the same places agree on it. */
  lemma {:induction false} IndexOfIdSameIds(s: seq<Incident>, t: seq<Incident>, id: int)
    requires |s| == |t|
    requires forall j :: 0 <= j < |s| ==> s[j].id == t[j].id
    ensures IndexOfId(s, id) == IndexOfId(t, id)
  {
    if s != [] && s[0].id != id {
      IndexOfIdSameIds(s[1..], t[1..], id);
    }
  }

  /** Appending a record does not move the first occurrence of an id already present. */
  lemma {:induction false} IndexOfIdAppend(s: seq<Incident>, x: Incident, id: int)
    ensures IndexOfId(s + [x], id) == if IndexOfId(s, id) >= 0 then IndexOfId(s, id) else if x.id == id then |s| else -1
  {
    if s != [] && s[0].id != id {
      assert (s + [x])[1..] == s[1..] + [x];
      IndexOfIdAppend(s[1..], x, id);
    }
  }

  /** The record `addIncident` builds from its arguments and the two clock readings. */
  function NewIncident(
    id: int, title: string, description: string, priority: Priority,
    sourceComponents: seq<SourceComponent>, incidentStartTime: Millis, incidentEndTime: Option<Millis>,
    createdNow: Millis, updatedNow: Millis): (r: Incident)
    ensures r.status == Open
    ensures r.id == id && r.title == title && r.description == description && r.priority == priority
    ensures r.sourceComponents == sourceComponents && r.incidentStartTime == incidentStartTime
    ensures r.incidentEndTime == incidentEndTime
    ensures r.createdAt == createdNow && r.updatedAt == updatedNow
  {
    Incident(id, title, description, Open, priority, sourceComponents,
             incidentStartTime, incidentEndTime, createdNow, updatedNow)
  }

  /** `Object.assign(incident, updates)` followed by the refresh of `updatedAt`. */
  function ApplyUpdate(inc: Incident, u: IncidentUpdate, now: Millis): (r: Incident)
    ensures r.id == inc.id && r.createdAt == inc.createdAt && r.updatedAt == now
    ensures r.title == (if u.title.Some? then u.title.value else inc.title)
    ensures r.description == (if u.description.Some? then u.description.value else inc.description)
    ensures r.status == (if u.status.Some? then u.status.value else inc.status)
    ensures r.priority == (if u.priority.Some? then u.priority.value else inc.priority)
    ensures r.sourceComponents == (if u.sourceComponents.Some? then u.sourceComponents.value else inc.sourceComponents)
    ensures r.incidentStartTime == (if u.incidentStartTime.Some? then u.incidentStartTime.value else inc.incidentStartTime)
    ensures r.incidentEndTime == (if u.incidentEndTime.Some? then u.incidentEndTime.value else inc.incidentEndTime)
  {
    var merged := inc.(
      title := if u.title.Some? then u.title.value else inc.title,
      description := if u.description.Some? then u.description.value else inc.description,
      status := if u.status.Some? then u.status.value else inc.status,
      priority := if u.priority.Some? then u.priority.value else inc.priority,
      sourceComponents := if u.sourceComponents.Some? then u.sourceComponents.value else inc.sourceComponents,
      incidentStartTime := if u.incidentStartTime.Some? then u.incidentStartTime.value else inc.incidentStartTime,
      incidentEndTime := if u.incidentEndTime.Some? then u.incidentEndTime.value else inc.incidentEndTime);
    merged.(updatedAt := now)
  }

  /** The list after `updateIncidentStatus(id, status)`: only the first record with `id` changes. */
  function WithStatus(s: seq<Incident>, id: int, status: Status, now: Millis): (r: seq<Incident>)
    ensures |r| == |s|
    ensures forall j :: 0 <= j < |s| ==> r[j].id == s[j].id
  {
    var k := IndexOfId(s, id);
    if k < 0 then s else s[k := s[k].(status := status, updatedAt := now)]
  }

  /** The list after `updateIncident(id, u)`: only the first record with `id` changes. */
  function WithUpdate(s: seq<Incident>, id: int, u: IncidentUpdate, now: Millis): (r: seq<Incident>)
    ensures |r| == |s|
    ensures forall j :: 0 <= j < |s| ==> r[j].id == s[j].id
  {
    var k := IndexOfId(s, id);
    if k < 0 then s else s[k := ApplyUpdate(s[k], u, now)]
  }

  /** The list after `deleteIncident(id)`: the first record with `id` spliced out. */
  function Without(s: seq<Incident>, id: int): (r: seq<Incident>)
    ensures IndexOfId(s, id) < 0 ==> r == s
    ensures IndexOfId(s, id) >= 0 ==> |r| == |s| - 1
    ensures forall j :: 0 <= j < |r| ==> r[j] in s
  {
    var k := IndexOfId(s, id);
    if k < 0 then s else s[..k] + s[k + 1..]
  }

  /** The three records the store starts with, `now` being the moment the module is loaded. */
  function SeedIncidents(now: Millis): (r: seq<Incident>)
    ensures |r| == 3 && IdsDistinct(r)
    ensures forall j :: 0 <= j < |r| ==> r[j].id == j + 1
    ensures forall j :: 0 <= j < |r| ==>
              r[j].incidentStartTime <= r[j].createdAt <= r[j].updatedAt <= now
    ensures forall j :: 0 <= j < |r| ==> (r[j].incidentEndTime.None? <==> r[j].status != Resolved)
  {
    [ Incident(1, "Server Outage", "Main server is down, affecting all users", Open, Critical,
               [SourceComponent("API Gateway", now - 7200000, now)],
               now - 7200000, None, now, now),
      Incident(2, "Database Connection Issue", "Intermittent database connection failures", InProgress, High,
               [SourceComponent("Database Server", now - 3600000, now)],
               now - 3600000, None, now - 3600000, now - 1800000),
      Incident(3, "UI Responsiveness", "Dashboard loading slowly for some users", Resolved, Medium,
               [SourceComponent("Frontend Service", now - 7200000, now - 3600000)],
               now - 7200000, Some(now - 3600000), now - 7200000, now - 3600000) ]
  }

  // ---------------------------------------------------------------------------
  // Properties of the operations on the list

  /** Create, then get: the new record is found under its id, and every other lookup is as before. */
  lemma AddThenFind(s: seq<Incident>, x: Incident, id: int)
    requires forall j :: 0 <= j < |s| ==> s[j].id != x.id
    ensures Find(s + [x], x.id) == Some(x)
    ensures id != x.id ==> Find(s + [x], id) == Find(s, id)
  {
    IndexOfIdAppend(s, x, x.id);
    IndexOfIdAppend(s, x, id);
  }

  /** A status update is the general update that carries only a status. */
  lemma StatusUpdateIsUpdate(s: seq<Incident>, id: int, status: Status, now: Millis)
    ensures WithStatus(s, id, status, now) == WithUpdate(s, id, NoChanges.(status := Some(status)), now)
  {
  }

  /** After an update the id leads to the merged record; a missing id stays missing. */
  lemma FindAfterUpdate(s: seq<Incident>, id: int, u: IncidentUpdate, now: Millis)
    ensures Find(WithUpdate(s, id, u, now), id) ==
            match Find(s, id)
            case None => None
            case Some(inc) => Some(ApplyUpdate(inc, u, now))
  {
    IndexOfIdSameIds(s, WithUpdate(s, id, u, now), id);
  }

  /** An update of an absent id leaves the list as it is; one of a present id touches that record only. */
  lemma UpdateFrame(s: seq<Incident>, id: int, u: IncidentUpdate, now: Millis, j: int)
    requires IdsDistinct(s)
    requires 0 <= j < |s|
    ensures s[j].id != id ==> WithUpdate(s, id, u, now)[j] == s[j]
    ensures s[j].id == id ==> WithUpdate(s, id, u, now)[j] == ApplyUpdate(s[j], u, now)
  {
  }

  /** Merging the same partial record twice is the same as merging it once. */
  lemma ApplyUpdateIdempotent(inc: Incident, u: IncidentUpdate, now: Millis)
    ensures ApplyUpdate(ApplyUpdate(inc, u, now), u, now) == ApplyUpdate(inc, u, now)
  {
  }

  /** Splicing out position `k` of a list with distinct ids removes exactly the record at `k`. */
  lemma SpliceContents(s: seq<Incident>, k: int)
    requires IdsDistinct(s)
    requires 0 <= k < |s|
    ensures forall x :: x in s[..k] + s[k + 1..] <==> x in s && x.id != s[k].id
    ensures IdsDistinct(s[..k] + s[k + 1..])
  {
    var r := s[..k] + s[k + 1..];
    assert forall i :: 0 <= i < |r| ==> r[i] == s[if i < k then i else i + 1];
    forall x
      ensures x in r <==> x in s && x.id != s[k].id
    {
      if x in s && x.id != s[k].id {
        var i :| 0 <= i < |s| && s[i] == x;
        assert r[if i < k then i else i - 1] == x;
      }
    }
    forall i, j | 0 <= i < j < |r|
      ensures r[i].id != r[j].id
    {
      assert r[i] == s[if i < k then i else i + 1];
      assert r[j] == s[if j < k then j else j + 1];
    }
  }

  /**
   * Deleting a present id removes exactly that record, keeps the order of the rest and
   * shortens the list by one; deleting an absent id changes nothing.
   */
  lemma DeleteRemovesOnlyId(s: seq<Incident>, id: int)
    requires IdsDistinct(s)
    ensures IndexOfId(s, id) < 0 ==> Without(s, id) == s
    ensures IndexOfId(s, id) >= 0 ==> |Without(s, id)| == |s| - 1
    ensures forall x :: x in Without(s, id) <==> x in s && x.id != id
    ensures Sequences.IsSubsequence(Without(s, id), s)
    ensures IdsDistinct(Without(s, id))
  {
    var k := IndexOfId(s, id);
    if k < 0 {
      Sequences.SubsequenceReflexive(s);
    } else {
      Sequences.SpliceIsSubsequence(s, k);
      SpliceContents(s, k);
    }
  }

  /** After a delete the id is gone: a later lookup fails and a second delete finds nothing. */
  lemma FindAfterDelete(s: seq<Incident>, id: int)
    requires IdsDistinct(s)
    ensures Find(Without(s, id), id) == None
    ensures Without(Without(s, id), id) == Without(s, id)
  {
    DeleteRemovesOnlyId(s, id);
  }

  // ---------------------------------------------------------------------------
  // The store itself

  class IncidentStore {
    var incidents: seq<Incident>
    var nextId: int
    /** Every id the store has ever handed out, deleted ones included. */
    ghost var issued: set<int>

    /** Ids are distinct, every stored id was issued, and every issued id lies below `nextId`. */
    ghost predicate Valid()
      reads this
    {
      && IdsDistinct(incidents)
      && (forall j :: 0 <= j < |incidents| ==> incidents[j].id in issued)
      && (forall id :: id in issued ==> id < nextId)
    }

    /** The module's initial state: the three seed records and `nextId = 4`. */
    constructor (now: Millis)
      ensures Valid()
      ensures incidents == SeedIncidents(now) && nextId == 4 && issued == {1, 2, 3}
    {
      incidents := SeedIncidents(now);
      nextId := 4;
      issued := {1, 2, 3};
    }

    /** `getIncidents`: the list itself, in insertion order. */
    method GetIncidents() returns (r: seq<Incident>)
      ensures r == incidents
    {
      r := incidents;
    }

    /** `getIncident`: the record with `id`, or `None` when there is none. */
    method GetIncident(id: int) returns (r: Option<Incident>)
      ensures r.Some? <==> exists j :: 0 <= j < |incidents| && incidents[j].id == id
      ensures r.Some? ==> r.value in incidents && r.value.id == id
      ensures r == Find(incidents, id)
    {
      r := Find(incidents, id);
    }

    /**
     * `addIncident`: the record gets the current `nextId`, status `open` and the given fields,
     * and is appended; the counter moves on by one, so the id has never been issued before.
     */
    method AddIncident(
      title: string, description: string, priority: Priority,
      sourceComponents: seq<SourceComponent>, incidentStartTime: Millis, incidentEndTime: Option<Millis>,
      createdNow: Millis, updatedNow: Millis)
      returns (r: Incident)
      requires Valid()
      modifies this
      ensures Valid()
      ensures r == NewIncident(old(nextId), title, description, priority, sourceComponents,
                               incidentStartTime, incidentEndTime, createdNow, updatedNow)
      ensures r.status == Open
      ensures incidents == old(incidents) + [r]
      ensures nextId == old(nextId) + 1
      ensures r.id !in old(issued) && issued == old(issued) + {r.id}
      ensures Find(incidents, r.id) == Some(r)
    {
      r := NewIncident(nextId, title, description, priority, sourceComponents,
                       incidentStartTime, incidentEndTime, createdNow, updatedNow);
      nextId := nextId + 1;
      AddThenFind(incidents, r, r.id);
      incidents := incidents + [r];
      issued := issued + {r.id};
    }

    /**
     * `updateIncidentStatus`: `None` and no change when `id` is absent; otherwise the record's
     * status and `updatedAt` are set and the updated record is returned.
     */
    method UpdateIncidentStatus(id: int, status: Status, now: Millis) returns (r: Option<Incident>)
      requires Valid()
      modifies this
      ensures Valid()
      ensures incidents == WithStatus(old(incidents), id, status, now)
      ensures nextId == old(nextId) && issued == old(issued)
      ensures r == match Find(old(incidents), id)
                   case None => None
                   case Some(inc) => Some(inc.(status := status, updatedAt := now))
    {
      var k := IndexOfId(incidents, id);
      if k < 0 {
        r := None;
      } else {
        var updated := incidents[k].(status := status, updatedAt := now);
        incidents := incidents[k := updated];
        r := Some(updated);
      }
    }

    /**
     * `updateIncident`: `None` and no change when `id` is absent; otherwise the supplied fields
     * are merged into the record, `updatedAt` is refreshed and the record is returned.
     */
    method UpdateIncident(id: int, u: IncidentUpdate, now: Millis) returns (r: Option<Incident>)
      requires Valid()
      modifies this
      ensures Valid()
      ensures incidents == WithUpdate(old(incidents), id, u, now)
      ensures nextId == old(nextId) && issued == old(issued)
      ensures r == Find(incidents, id)
      ensures r == match Find(old(incidents), id)
                   case None => None
                   case Some(inc) => Some(ApplyUpdate(inc, u, now))
    {
      FindAfterUpdate(incidents, id, u, now);
      var k := IndexOfId(incidents, id);
      if k < 0 {
        r := None;
      } else {
        var updated := ApplyUpdate(incidents[k], u, now);
        incidents := incidents[k := updated];
        r := Some(updated);
      }
    }

    /**
     * `deleteIncident`: `false` and no change when `id` is absent; otherwise the record is
     * spliced out and `true` returned. The counter is untouched, so the id is never reissued.
     */
    method DeleteIncident(id: int) returns (deleted: bool)
      requires Valid()
      modifies this
      ensures Valid()
      ensures deleted <==> Find(old(incidents), id).Some?
      ensures incidents == Without(old(incidents), id)
      ensures Find(incidents, id) == None
      ensures nextId == old(nextId) && issued == old(issued)
    {
      DeleteRemovesOnlyId(incidents, id);
      FindAfterDelete(incidents, id);
      ghost var remaining := Without(incidents, id);
      var k := IndexOfId(incidents, id);
      if k == -1 {
        deleted := false;
      } else {
        incidents := incidents[..k] + incidents[k + 1..];
        deleted := true;
      }
      assert incidents == remaining;
    }
  }
}
