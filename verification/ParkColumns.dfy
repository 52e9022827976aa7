/** The park store as a table with a pr_key column: the meaning that every backend of the
    ParkStore interface must agree with. A row is parked exactly when its pr_key is set. */
module ParkColumns {

  type Sid = string
  type Workflow = string

  /** Times are points on one clock; ZERO_TIME is Go's zero time.Time. */
  type Time = int
  const ZERO_TIME: Time := 0

  datatype ParkRecord = ParkRecord(
    sessionID: Sid,
    workflow: Workflow,
    prKey: string,
    callID: string,
    attempts: int,
    params: string,
    updatedAt: Time)

  type Rows = map<Sid, ParkRecord>

  /** Every row is stored under its own session id. */
  predicate WellKeyed(rows: Rows) {
    forall s :: s in rows ==> rows[s].sessionID == s
  }

  predicate Parked(rows: Rows, s: Sid) {
    s in rows && rows[s].prKey != ""
  }

  /** At most one parked row for each (workflow, pr_key). */
  ghost predicate KeysUnique(rows: Rows) {
    forall s, t | Parked(rows, s) && Parked(rows, t) ::
      rows[s].workflow == rows[t].workflow && rows[s].prKey == rows[t].prKey ==> s == t
  }

  function Unpark(r: ParkRecord): ParkRecord { r.(prKey := "") }

  /** The sessions that hold (workflow, key). */
  function Holders(rows: Rows, workflow: Workflow, key: string): set<Sid> {
    set s | s in rows && rows[s].workflow == workflow && rows[s].prKey == key
  }

  /** Put: clear the key on any other session of the workflow, then write the row. */
  function ClearOthers(rows: Rows, r: ParkRecord): Rows {
    map s | s in rows ::
      if r.prKey != "" && s != r.sessionID && rows[s].workflow == r.workflow && rows[s].prKey == r.prKey
      then Unpark(rows[s]) else rows[s]
  }

  function PutRow(rows: Rows, r: ParkRecord): Rows {
    ClearOthers(rows, r)[r.sessionID := r]
  }

  /** A claim clears the key and keeps the row. */
  function ClaimRow(rows: Rows, s: Sid): Rows
    requires s in rows
  {
    rows[s := Unpark(rows[s])]
  }

  /** A parked row whose last write is before the cutoff. A zero stamp is never stale. */
  predicate StaleParked(r: ParkRecord, workflow: Workflow, cutoff: Time) {
    r.workflow == workflow && r.prKey != "" && r.updatedAt != ZERO_TIME && r.updatedAt < cutoff
  }

  predicate Orphaned(r: ParkRecord, workflow: Workflow, cutoff: Time) {
    r.workflow == workflow && r.prKey == "" && r.updatedAt != ZERO_TIME && r.updatedAt < cutoff
  }

  function StaleSids(rows: Rows, workflow: Workflow, cutoff: Time): set<Sid> {
    set s | s in rows && StaleParked(rows[s], workflow, cutoff)
  }

  function SweptRows(rows: Rows, workflow: Workflow, cutoff: Time): Rows {
    map s | s in rows :: if StaleParked(rows[s], workflow, cutoff) then Unpark(rows[s]) else rows[s]
  }

  /** What the timeout sweep returns: the stale rows as they stood, keys included. */
  function SweptRecords(rows: Rows, workflow: Workflow, cutoff: Time): set<ParkRecord> {
    set s | s in rows && StaleParked(rows[s], workflow, cutoff) :: rows[s]
  }

  function OrphanRecords(rows: Rows, workflow: Workflow, cutoff: Time): set<ParkRecord> {
    set s | s in rows && Orphaned(rows[s], workflow, cutoff) :: rows[s]
  }

  function ParkedSids(rows: Rows, workflow: Workflow): set<Sid> {
    set s | s in rows && rows[s].workflow == workflow && rows[s].prKey != ""
  }

  lemma PutRowAt(rows: Rows, r: ParkRecord, s: Sid)
    requires s in PutRow(rows, r) && s != r.sessionID
    ensures s in rows
    ensures PutRow(rows, r)[s] == rows[s] || PutRow(rows, r)[s] == Unpark(rows[s])
    ensures Parked(PutRow(rows, r), s) ==> PutRow(rows, r)[s] == rows[s]
    ensures Parked(PutRow(rows, r), s) && rows[s].workflow == r.workflow ==> rows[s].prKey != r.prKey
  {
  }

  /** A write gives its key to one session only, and disturbs no other parked row. */
  lemma PutKeepsInvariants(rows: Rows, r: ParkRecord)
    requires WellKeyed(rows) && KeysUnique(rows)
    ensures WellKeyed(PutRow(rows, r)) && KeysUnique(PutRow(rows, r))
    ensures r.prKey != "" ==> Holders(PutRow(rows, r), r.workflow, r.prKey) == {r.sessionID}
  {
    var after := PutRow(rows, r);
    forall s, t | Parked(after, s) && Parked(after, t) && after[s].workflow == after[t].workflow
        && after[s].prKey == after[t].prKey
      ensures s == t
    {
      if s != r.sessionID { PutRowAt(rows, r, s); }
      if t != r.sessionID { PutRowAt(rows, r, t); }
    }
    forall s | s in after && s != r.sessionID
      ensures after[s].sessionID == s
      ensures r.prKey != "" ==> s !in Holders(after, r.workflow, r.prKey)
    {
      PutRowAt(rows, r, s);
    }
  }

  /** The timeout sweep and the orphan sweep, given one cutoff, split the workflow's rows stamped
      before it: no row is in both and none is in neither. */
  lemma SweepsPartition(rows: Rows, workflow: Workflow, cutoff: Time)
    requires WellKeyed(rows)
    ensures SweptRecords(rows, workflow, cutoff) !! OrphanRecords(rows, workflow, cutoff)
    ensures SweptRecords(rows, workflow, cutoff) + OrphanRecords(rows, workflow, cutoff)
         == set s | s in rows && rows[s].workflow == workflow && rows[s].updatedAt != ZERO_TIME
             && rows[s].updatedAt < cutoff :: rows[s]
    ensures forall s, k :: s in StaleSids(rows, workflow, cutoff) && k >= cutoff
              ==> Unpark(rows[s]) in OrphanRecords(SweptRows(rows, workflow, cutoff), workflow, k)
  {
    var swept := SweptRows(rows, workflow, cutoff);
    forall s, k | s in StaleSids(rows, workflow, cutoff) && k >= cutoff
      ensures Unpark(rows[s]) in OrphanRecords(swept, workflow, k)
    {
      assert swept[s] == Unpark(rows[s]);
      assert Orphaned(swept[s], workflow, k);
    }
    var before := set s | s in rows && rows[s].workflow == workflow && rows[s].updatedAt != ZERO_TIME
        && rows[s].updatedAt < cutoff :: rows[s];
    forall r | r in before
      ensures r in SweptRecords(rows, workflow, cutoff) + OrphanRecords(rows, workflow, cutoff)
    {
      var s := r.sessionID;
      assert s in rows && rows[s] == r;
    }
  }

  ghost function Unparked(rows: Rows, done: set<Sid>): Rows {
    map s | s in rows :: if s in done then Unpark(rows[s]) else rows[s]
  }

  /** The list holds the original row of each session in the set, once. */
  ghost predicate Lists(out: seq<ParkRecord>, rows: Rows, done: set<Sid>) {
    && (forall s :: s in done ==> s in rows && rows[s] in out)
    && (forall i :: 0 <= i < |out| ==>
        out[i].sessionID in done && out[i].sessionID in rows && rows[out[i].sessionID] == out[i])
    && (forall i, j :: 0 <= i < j < |out| ==> out[i].sessionID != out[j].sessionID)
  }

  lemma ListOneMore(out: seq<ParkRecord>, rows: Rows, done: set<Sid>, s: Sid)
    requires WellKeyed(rows) && Lists(out, rows, done) && s in rows && s !in done
    ensures Lists(out + [rows[s]], rows, done + {s})
  {
  }
}
