/** Every fix engine shares one park store. This module runs any interleaving of the engines'
    operations against the shared table and shows that one engine cannot tell the others exist. */
module StoreIsolation {
  import opened Wrappers
  import opened ParkColumns

  datatype Op =
    | Put(r: ParkRecord)
    | Get(sid: Sid)
    | Resolve(workflow: Workflow, key: string)
    | Delete(sid: Sid)
    | Sweep(workflow: Workflow, cutoff: Time)
    | Orphans(workflow: Workflow, cutoff: Time)
    | Count(workflow: Workflow)

  datatype Result = Done | Record(found: Option<ParkRecord>) | Records(all: set<ParkRecord>) | Number(n: nat)

  datatype Outcome = Outcome(rows: Rows, result: Result)

  /** The row a resolve takes when several could match; one backend, one choice. */
  ghost function PickFrom(candidates: set<Sid>): (s: Sid)
    requires candidates != {}
    ensures s in candidates
  {
    var s :| s in candidates; s
  }

  ghost function Apply(rows: Rows, op: Op): Outcome {
    match op
    case Put(r) => Outcome(PutRow(rows, r), Done)
    case Get(sid) => Outcome(rows, Record(if sid in rows then Some(rows[sid]) else None))
    case Resolve(w, key) =>
      if key == "" || Holders(rows, w, key) == {} then Outcome(rows, Record(None))
      else var s := PickFrom(Holders(rows, w, key)); Outcome(ClaimRow(rows, s), Record(Some(Unpark(rows[s]))))
    case Delete(sid) => Outcome(rows - {sid}, Done)
    case Sweep(w, cutoff) => Outcome(SweptRows(rows, w, cutoff), Records(SweptRecords(rows, w, cutoff)))
    case Orphans(w, cutoff) => Outcome(rows, Records(OrphanRecords(rows, w, cutoff)))
    case Count(w) => Outcome(rows, Number(|ParkedSids(rows, w)|))
  }

  /** The engine that issues an operation. Session ids are fresh and belong to one engine for
      life, which is what the map `home` records. */
  ghost function Issuer(op: Op, home: map<Sid, Workflow>): Workflow {
    match op
    case Put(r) => r.workflow
    case Get(sid) => if sid in home then home[sid] else ""
    case Delete(sid) => if sid in home then home[sid] else ""
    case Resolve(w, _) => w
    case Sweep(w, _) => w
    case Orphans(w, _) => w
    case Count(w) => w
  }

  ghost predicate OwnSessions(op: Op, home: map<Sid, Workflow>) {
    match op
    case Put(r) => r.sessionID in home && home[r.sessionID] == r.workflow
    case Get(sid) => sid in home
    case Delete(sid) => sid in home
    case _ => true
  }

  /** Rows sit under their own session id and carry the workflow the session belongs to. */
  ghost predicate AtHome(rows: Rows, home: map<Sid, Workflow>) {
    WellKeyed(rows) && forall s :: s in rows ==> s in home && home[s] == rows[s].workflow
  }

  ghost function View(rows: Rows, w: Workflow): Rows {
    map s | s in rows && rows[s].workflow == w :: rows[s]
  }

  ghost function FinalRows(rows: Rows, ops: seq<Op>): Rows
    decreases |ops|
  {
    if ops == [] then rows else FinalRows(Apply(rows, ops[0]).rows, ops[1..])
  }

  ghost function OwnOps(ops: seq<Op>, w: Workflow, home: map<Sid, Workflow>): seq<Op> {
    if ops == [] then []
    else if Issuer(ops[0], home) == w then [ops[0]] + OwnOps(ops[1..], w, home)
    else OwnOps(ops[1..], w, home)
  }

  /** The results that engine w saw, in order. */
  ghost function OwnResults(rows: Rows, ops: seq<Op>, w: Workflow, home: map<Sid, Workflow>): seq<Result>
    decreases |ops|
  {
    if ops == [] then []
    else
      var o := Apply(rows, ops[0]);
      if Issuer(ops[0], home) == w then [o.result] + OwnResults(o.rows, ops[1..], w, home)
      else OwnResults(o.rows, ops[1..], w, home)
  }

  lemma StepKeepsHome(rows: Rows, op: Op, home: map<Sid, Workflow>)
    requires AtHome(rows, home) && OwnSessions(op, home)
    ensures AtHome(Apply(rows, op).rows, home)
  {
  }

  lemma SameAnswers(rows: Rows, w: Workflow, cutoff: Time)
    ensures SweptRecords(View(rows, w), w, cutoff) == SweptRecords(rows, w, cutoff)
    ensures OrphanRecords(View(rows, w), w, cutoff) == OrphanRecords(rows, w, cutoff)
  {
    var mine := View(rows, w);
    forall s | s in rows && rows[s].workflow == w && (StaleParked(rows[s], w, cutoff) || Orphaned(rows[s], w, cutoff))
      ensures s in mine && mine[s] == rows[s]
    {
    }
  }

  /** An engine's own step does to its view, and answers, what it would on a private store. */
  lemma OwnStep(rows: Rows, op: Op, home: map<Sid, Workflow>)
    requires AtHome(rows, home) && OwnSessions(op, home)
    ensures var w := Issuer(op, home);
            Apply(View(rows, w), op) == Outcome(View(Apply(rows, op).rows, w), Apply(rows, op).result)
  {
    var w := Issuer(op, home);
    var mine := View(rows, w);
    match op
    case Put(r) => assert PutRow(mine, r) == View(PutRow(rows, r), w);
    case Get(sid) =>
    case Resolve(_, key) =>
      assert Holders(mine, w, key) == Holders(rows, w, key);
      if key != "" && Holders(rows, w, key) != {} {
        var s := PickFrom(Holders(rows, w, key));
        assert ClaimRow(mine, s) == View(ClaimRow(rows, s), w);
      }
    case Delete(sid) => assert mine - {sid} == View(rows - {sid}, w);
    case Sweep(_, cutoff) =>
      assert SweptRows(mine, w, cutoff) == View(SweptRows(rows, w, cutoff), w);
      SameAnswers(rows, w, cutoff);
    case Orphans(_, cutoff) => SameAnswers(rows, w, cutoff);
    case Count(_) => assert ParkedSids(mine, w) == ParkedSids(rows, w);
  }

  /** Another engine's step is invisible. */
  lemma ForeignStep(rows: Rows, op: Op, home: map<Sid, Workflow>, w: Workflow)
    requires AtHome(rows, home) && OwnSessions(op, home) && Issuer(op, home) != w
    ensures View(Apply(rows, op).rows, w) == View(rows, w)
  {
  }

  /** Main result: drop every other engine's operations from an interleaved run and engine w gets
      the same answers in the same order and ends with the same rows. */
  lemma {:induction false} EnginesAreIsolated(rows: Rows, ops: seq<Op>, home: map<Sid, Workflow>, w: Workflow)
    requires AtHome(rows, home) && forall i :: 0 <= i < |ops| ==> OwnSessions(ops[i], home)
    ensures OwnResults(rows, ops, w, home) == OwnResults(View(rows, w), OwnOps(ops, w, home), w, home)
    ensures View(FinalRows(rows, ops), w) == FinalRows(View(rows, w), OwnOps(ops, w, home))
    decreases |ops|
  {
    if ops != [] {
      var op := ops[0];
      StepKeepsHome(rows, op, home);
      EnginesAreIsolated(Apply(rows, op).rows, ops[1..], home, w);
      if Issuer(op, home) == w {
        OwnStep(rows, op, home);
        var own := OwnOps(ops, w, home);
        assert own[0] == op && own[1..] == OwnOps(ops[1..], w, home);
      } else {
        ForeignStep(rows, op, home, w);
      }
    }
  }
}
