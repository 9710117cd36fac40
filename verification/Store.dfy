/** The SQLite-backed store of the agent. Each SQL statement is one atomic step; a row holds the
    value that its JSON column encodes. Times are integer milliseconds. */
module Stores {
  import opened Contracts
  import opened EventLog

  /** A row of `incidents`, keyed by incident ID. `resolvedAt` 0 means open. */
  datatype Row = Row(
    key: string, severity: string, openedAt: int, updatedAt: int, resolvedAt: int,
    signals: seq<Signal>, affected: seq<string>)

  datatype IncidentRecord = IncidentRecord(incident: Incident, key: string)

  datatype ApprovalRecord = ApprovalRecord(
    requestId: string, incidentId: string, proposal: Proposal, requestedAt: int, expiresAt: int)

  function ResolvedCode(resolvedAt: Option<int>): int {
    if resolvedAt == None then 0 else resolvedAt.value
  }

  /** INSERT ... ON CONFLICT(id) DO UPDATE: an existing row keeps its key and its opening time. */
  function UpsertedRow(table: map<string, Row>, inc: Incident, key: string): Row {
    var row := Row(key, inc.severity, inc.openedAt, inc.updatedAt, ResolvedCode(inc.resolvedAt),
                   inc.signals, inc.affectedResources);
    if inc.id in table then row.(key := table[inc.id].key, openedAt := table[inc.id].openedAt) else row
  }

  function Upserted(table: map<string, Row>, inc: Incident, key: string): map<string, Row> {
    table[inc.id := UpsertedRow(table, inc, key)]
  }

  predicate OpenRow(table: map<string, Row>, id: string) {
    id in table && table[id].resolvedAt == 0
  }

  /** Likewise an existing approval keeps its incident and its request time. */
  function UpsertedApproval(table: map<string, ApprovalRecord>, rec: ApprovalRecord): map<string, ApprovalRecord> {
    table[rec.requestId :=
      if rec.requestId in table then table[rec.requestId].(proposal := rec.proposal, expiresAt := rec.expiresAt)
      else rec]
  }

  /** What LoadOpenIncidents makes of a row. */
  function RecordOf(id: string, row: Row): IncidentRecord {
    IncidentRecord(Incident(id, row.signals, row.affected, row.severity, row.openedAt, row.updatedAt, None), row.key)
  }

  /** The open rows, each exactly once, in whatever order the query yields them. */
  ghost predicate ListsOpenRows(records: seq<IncidentRecord>, table: map<string, Row>) {
    && (forall i :: 0 <= i < |records| ==>
          OpenRow(table, records[i].incident.id) &&
          records[i] == RecordOf(records[i].incident.id, table[records[i].incident.id]))
    && (forall i, j :: 0 <= i < j < |records| ==> records[i].incident.id != records[j].incident.id)
    && (forall id :: OpenRow(table, id) ==> RecordOf(id, table[id]) in records)
  }

  /** LoadCBEvents: the rows recorded strictly after `since`, ordered by time. */
  function EventsSince(rows: seq<int>, since: int): seq<int> {
    if rows == [] then []
    else
      var rest := EventsSince(rows[..|rows| - 1], since);
      if rows[|rows| - 1] > since then InsertSorted(rest, rows[|rows| - 1]) else rest
  }

  lemma {:induction false} EventsSinceCounts(rows: seq<int>, since: int, limit: int)
    ensures Sorted(EventsSince(rows, since))
    ensures since <= limit ==> CountAbove(EventsSince(rows, since), limit) == CountAbove(rows, limit)
  {
    if rows != [] {
      EventsSinceCounts(rows[..|rows| - 1], since, limit);
      InsertSortedFits(EventsSince(rows[..|rows| - 1], since), rows[|rows| - 1]);
      InsertSortedCounts(EventsSince(rows[..|rows| - 1], since), rows[|rows| - 1], limit);
    }
  }

  class Store {
    var incidents: map<string, Row>
    var approvals: map<string, ApprovalRecord>
    var breakerEvents: seq<int>

    constructor ()
      ensures incidents == map[] && approvals == map[] && breakerEvents == []
    {
      incidents, approvals, breakerEvents := map[], map[], [];
    }

    method UpsertIncident(inc: Incident, key: string)
      modifies this`incidents
      ensures incidents == Upserted(old(incidents), inc, key)
      ensures forall id <- old(incidents) :: id != inc.id ==> id in incidents && incidents[id] == old(incidents)[id]
      ensures inc.id in incidents
      ensures var row := incidents[inc.id];
              && row.severity == inc.severity && row.updatedAt == inc.updatedAt && row.signals == inc.signals
              && row.affected == inc.affectedResources && (row.resolvedAt == 0 <==> inc.resolvedAt in {None, Some(0)})
              && (inc.resolvedAt.Some? ==> row.resolvedAt == inc.resolvedAt.value)
              && (if inc.id in old(incidents)
                  then row.key == old(incidents)[inc.id].key && row.openedAt == old(incidents)[inc.id].openedAt
                  else row.key == key && row.openedAt == inc.openedAt)
    {
      var resolvedAt := 0;
      if inc.resolvedAt != None {
        resolvedAt := inc.resolvedAt.value;
      }
      var inserted := Row(key, inc.severity, inc.openedAt, inc.updatedAt, resolvedAt,
                          inc.signals, inc.affectedResources);
      if inc.id !in incidents {
        incidents := incidents[inc.id := inserted];
      } else {
        incidents := incidents[inc.id := incidents[inc.id].(
          severity := inserted.severity, updatedAt := inserted.updatedAt, resolvedAt := inserted.resolvedAt,
          signals := inserted.signals, affected := inserted.affected)];
      }
    }

    method LoadOpenIncidents() returns (out: seq<IncidentRecord>)
      ensures ListsOpenRows(out, incidents)
    {
      out := [];
      var rows := incidents.Keys;
      while rows != {}
        invariant rows <= incidents.Keys
        invariant forall i :: 0 <= i < |out| ==>
          var id := out[i].incident.id; id !in rows && OpenRow(incidents, id) && out[i] == RecordOf(id, incidents[id])
        invariant forall i, j :: 0 <= i < j < |out| ==> out[i].incident.id != out[j].incident.id
        invariant forall id :: OpenRow(incidents, id) && id !in rows ==> RecordOf(id, incidents[id]) in out
        decreases rows
      {
        var id :| id in rows;
        if incidents[id].resolvedAt == 0 {
          assert OpenRow(incidents, id);
          out := out + [RecordOf(id, incidents[id])];
        }
        rows := rows - {id};
      }
    }

    method UpsertApproval(rec: ApprovalRecord)
      modifies this`approvals
      ensures approvals == UpsertedApproval(old(approvals), rec)
      ensures forall id <- old(approvals) ::
                id != rec.requestId ==> id in approvals && approvals[id] == old(approvals)[id]
      ensures rec.requestId in approvals
      ensures var row := approvals[rec.requestId];
              && row.proposal == rec.proposal && row.expiresAt == rec.expiresAt
              && (if rec.requestId in old(approvals)
                  then row.incidentId == old(approvals)[rec.requestId].incidentId
                       && row.requestedAt == old(approvals)[rec.requestId].requestedAt
                  else row.incidentId == rec.incidentId && row.requestedAt == rec.requestedAt)
    {
      if rec.requestId !in approvals {
        approvals := approvals[rec.requestId := rec];
      } else {
        approvals := approvals[rec.requestId :=
          approvals[rec.requestId].(proposal := rec.proposal, expiresAt := rec.expiresAt)];
      }
    }

    method DeleteApproval(requestId: string)
      modifies this`approvals
      ensures approvals == old(approvals) - {requestId}
    {
      approvals := approvals - {requestId};
    }

    method RecordCBEvent(now: int)
      modifies this`breakerEvents
      ensures breakerEvents == old(breakerEvents) + [now]
    {
      breakerEvents := breakerEvents + [now];
    }

    method LoadCBEvents(since: int) returns (out: seq<int>)
      ensures out == EventsSince(breakerEvents, since)
    {
      out := [];
      var i := 0;
      while i < |breakerEvents|
        invariant i <= |breakerEvents|
        invariant out == EventsSince(breakerEvents[..i], since)
      {
        assert breakerEvents[..i + 1][..i] == breakerEvents[..i];
        if breakerEvents[i] > since {
          out := InsertSorted(out, breakerEvents[i]);
        }
        i := i + 1;
      }
      assert breakerEvents[..i] == breakerEvents;
    }
  }
}
