/** What one handler did in a run of the protocol: its arrival, its calls with what came of them, and its
    crash if it crashed, in order. And what a handler of each kind does: which calls follow on which. */
module FixDeeds {
  import opened Wrappers
  import opened ParkColumns
  import opened FixRuns

  /** seen is the record that a call reads or claims. */
  datatype Deed =
    | Arrived(event: Event)
    | Made(stage: Stage, choice: Choice, seen: Option<ParkRecord>)
    | Crashed

  function Row(rows: Rows, sid: Sid): Option<ParkRecord> { if sid in rows then Some(rows[sid]) else None }

  function Seen(s: State, stage: Stage, c: Choice): Option<ParkRecord> {
    if c.Wins? then Row(s.rows, c.sid)
    else if stage.ParkGet? || stage.RetryGet? then Row(s.rows, stage.sid)
    else None
  }

  function DeedOf(s: State, e: Event, id: nat): seq<Deed> {
    if e.Tick? || e.id != id then []
    else
      match e
      case Act(_, c) =>
        if id in s.handlers then [Made(s.handlers[id].stage, c, Seen(s, s.handlers[id].stage, c))] else []
      case Crash(_) => [Crashed]
      case _ => [Arrived(e)]
  }

  function DeedsOf(states: seq<State>, events: seq<Event>, id: nat): seq<Deed>
    requires |states| == |events| + 1
    decreases |events|
  {
    if events == [] then []
    else
      var n := |events| - 1;
      DeedsOf(states[..n+1], events[..n], id) + DeedOf(states[n], events[n], id)
  }

  lemma OneMoreDeed(states: seq<State>, events: seq<Event>, s: State, e: Event, id: nat)
    requires |states| == |events| + 1
    ensures DeedsOf(states + [s], events + [e], id) == DeedsOf(states, events, id) + DeedOf(states[|events|], e, id)
  {
    var n := |events|;
    hide DeedOf;
    assert (states + [s])[..n+1] == states && (events + [e])[..n] == events;
  }

  /** A call is a step of the run: it was made at its stage, and the table, the sessions and the channel
      were after it what the protocol says. */
  ghost predicate Happened(states: seq<State>, events: seq<Event>, id: nat, d: Deed, k: int)
    requires |states| == |events| + 1
  {
    && d.Made? && 0 <= k < |events| && events[k] == Act(id, d.choice)
    && CanAct(states[k], id, d.choice) && states[k].handlers[id].stage == d.stage
    && d.seen == Seen(states[k], d.stage, d.choice)
    && (d.choice.Wins? ==> d.choice.sid in states[k].rows)
    && states[k+1].rows == RowsAfter(states[k], states[k].handlers[id], d.choice)
    && states[k+1].sessions == SessionsAfter(states[k], states[k].handlers[id], d.choice)
    && states[k+1].notices == states[k].notices + Said(d.stage)
  }

  lemma {:induction false} DeedsHappen(cfg: Config, states: seq<State>, events: seq<Event>, id: nat, d: Deed)
    requires IsRun(cfg, states, events) && d in DeedsOf(states, events, id) && d.Made?
    ensures exists k :: Happened(states, events, id, d, k)
    decreases |events|
  {
    var n := |events| - 1;
    var ss, es := states[..n+1], events[..n];
    assert states[n+1] == Next(cfg, states[n], events[n]) && Enabled(states[n], events[n]);
    if d in DeedOf(states[n], events[n], id) {
      StepHappens(cfg, states[n], events[n], id, d);
      assert Happened(states, events, id, d, n);
    } else {
      DeedsHappen(cfg, ss, es, id, d);
      hide RowsAfter, SessionsAfter, Said, Seen;
      var k :| Happened(ss, es, id, d, k);
      assert ss[k] == states[k] && ss[k+1] == states[k+1] && es[k] == events[k];
      assert Happened(states, events, id, d, k);
    }
  }

  lemma StepHappens(cfg: Config, s: State, e: Event, id: nat, d: Deed)
    requires Enabled(s, e) && d in DeedOf(s, e, id) && d.Made?
    ensures e == Act(id, d.choice) && CanAct(s, id, d.choice) && s.handlers[id].stage == d.stage
    ensures d.seen == Seen(s, d.stage, d.choice) && (d.choice.Wins? ==> d.choice.sid in s.rows)
    ensures var next := Next(cfg, s, e);
            && next.rows == RowsAfter(s, s.handlers[id], d.choice)
            && next.sessions == SessionsAfter(s, s.handlers[id], d.choice)
            && next.notices == s.notices + Said(d.stage)
  {
    hide HandlerAfter, DrivesAfter, Said;
  }

  /** The table holds this record, stamped with this time. */
  predicate HoldsAt(rows: Rows, r: ParkRecord, time: Time) {
    && r.sessionID in rows
    && var row := rows[r.sessionID];
       && row.sessionID == r.sessionID && row.workflow == r.workflow && row.prKey == r.prKey
       && row.callID == r.callID && row.attempts == r.attempts && row.params == r.params && row.updatedAt == time
  }

  /** The same row, but that its key may be another. */
  predicate SameButKey(x: ParkRecord, y: ParkRecord) {
    && x.sessionID == y.sessionID && x.workflow == y.workflow && x.callID == y.callID
    && x.attempts == y.attempts && x.params == y.params && x.updatedAt == y.updatedAt
  }

  /** The same row, but for its parameters and its stamp. */
  predicate SameButParams(x: ParkRecord, y: ParkRecord) {
    && x.sessionID == y.sessionID && x.workflow == y.workflow && x.prKey == y.prKey && x.callID == y.callID
    && x.attempts == y.attempts
  }

  /** Of the other sessions, none comes or goes, and only those that hold the record's key change: they
      lose it. */
  ghost predicate OthersStay(before: Rows, rows: Rows, r: ParkRecord) {
    && (forall s :: s != r.sessionID ==> (s in rows <==> s in before))
    && forall s :: s in before && s != r.sessionID ==>
        && SameButKey(rows[s], before[s])
        && rows[s].prKey == if r.prKey != "" && before[s].workflow == r.workflow && before[s].prKey == r.prKey
                            then "" else before[s].prKey
  }

  /** The claimed session is there as it was, without its key, and every other row is untouched. */
  ghost predicate OnlyUnparks(before: Rows, rows: Rows, sid: Sid) {
    && (forall s :: s in rows <==> s in before)
    && sid in before && SameButKey(rows[sid], before[sid]) && rows[sid].prKey == ""
    && forall s :: s in before && s != sid ==> rows[s] == before[s]
  }

  /** What calls do to the table: a write that worked leaves the record there with the time of the write, a
      claim takes the key, a deletion the row; a call that failed, and every other call, leaves the
      table alone. */
  lemma EffectsOfDeeds(states: seq<State>, events: seq<Event>, id: nat, d: Deed, k: int)
    requires |states| == |events| + 1 && Happened(states, events, id, d, k)
    ensures var (before, rows, time) := (states[k].rows, states[k+1].rows, states[k].now);
            var (stage, failed) := (d.stage, d.choice.Fails?);
            && (stage.PutParams? && !failed ==>
                  var r := ParkRecord(stage.sid, states[k].handlers[id].workflow, "", "", 0, stage.params, 0);
                  HoldsAt(rows, r, time) && OthersStay(before, rows, r))
            && ((stage.ParkPut? || stage.RetryPut?) && !failed ==>
                  HoldsAt(rows, stage.record, time) && OthersStay(before, rows, stage.record))
            && ((stage.Claim? || stage.SweepClaim?) && d.choice.Wins? ==> OnlyUnparks(before, rows, d.choice.sid))
            && (stage.DeleteRecord? && !failed ==> rows.Keys == before.Keys - {stage.sid})
            && (forall s :: stage.DeleteRecord? && s in rows ==> s in before && rows[s] == before[s])
            && (failed ==> rows == before)
            && (stage.PutParams? || stage.ParkPut? || stage.RetryPut? || stage.DeleteRecord? || d.choice.Wins?
                || rows == before)
  {
  }

  /** What calls find: a claim wins only a run of its own engine, parked under its key or, for a sweep,
      since before its cutoff, and misses only when there is none; a scan for orphans lists exactly its
      engine's unparked runs from before its cutoff. */
  lemma FindingsOfDeeds(states: seq<State>, events: seq<Event>, id: nat, d: Deed, k: int)
    requires |states| == |events| + 1 && Happened(states, events, id, d, k)
    ensures var (rows, w, c) := (states[k].rows, states[k].handlers[id].workflow, d.choice);
            && (c.Wins? ==> c.sid in rows && rows[c.sid].workflow == w && rows[c.sid].prKey != "")
            && (d.stage.Claim? && c.Wins? ==> rows[c.sid].prKey == d.stage.key)
            && (d.stage.Claim? && c.FindsNothing? ==>
                  d.stage.key == "" || forall s :: s in rows && rows[s].workflow == w ==> rows[s].prKey != d.stage.key)
            && (d.stage.SweepClaim? && c.Wins? ==> ZERO_TIME != rows[c.sid].updatedAt < d.stage.cutoff)
            && (d.stage.RetryGet? ==> (c.Decodes? ==> d.stage.sid in rows) && (c.Works? ==> d.stage.sid !in rows))
    ensures d.stage.OrphanScan? && d.choice.Lists? ==>
              forall s :: s in d.choice.sids <==>
                && s in states[k].rows
                && var r := states[k].rows[s];
                   && r.workflow == states[k].handlers[id].workflow && r.prKey == ""
                   && ZERO_TIME != r.updatedAt < d.stage.cutoff
  {
    var s := states[k];
    if d.stage.Claim? && d.choice.FindsNothing? {
      var w := s.handlers[id].workflow;
      forall x | x in s.rows && s.rows[x].workflow == w && s.rows[x].prKey == d.stage.key
        ensures x in Holders(s.rows, w, d.stage.key) { }
    }
  }

  /** What they do to the sessions and to the channel: a drive that starts has a session, a deletion that
      worked takes it, and only the two reports say anything. */
  lemma OtherEffectsOfDeeds(states: seq<State>, events: seq<Event>, id: nat, d: Deed, k: int)
    requires |states| == |events| + 1 && Happened(states, events, id, d, k)
    ensures var (before, after, w) := (states[k].sessions, states[k+1].sessions, states[k].handlers[id].workflow);
            after == if d.choice.Fails? then before
                     else if d.stage.StartDrive? then before + {(w, d.stage.sid)}
                     else if d.stage.DeleteSession? then before - {(w, d.stage.sid)}
                     else before
    ensures var (before, after) := (states[k].notices, states[k+1].notices);
            after == if d.stage.Tell? || d.stage.TellAfter? then before + [Notice(d.stage.sid, d.stage.kind)]
                     else before
  {
  }

  lemma {:induction false} NoticesStay(cfg: Config, states: seq<State>, events: seq<Event>, k: nat)
    requires IsRun(cfg, states, events) && k <= |events|
    ensures states[k].notices <= states[|events|].notices
    decreases |events| - k
  {
    if k < |events| {
      assert states[k+1] == Next(cfg, states[k], events[k]) && Enabled(states[k], events[k]);
      NoticesGrow(cfg, states[k], events[k]);
      NoticesStay(cfg, states, events, k + 1);
    }
  }

  lemma NoticesGrow(cfg: Config, s: State, e: Event)
    requires Enabled(s, e)
    ensures s.notices <= Next(cfg, s, e).notices
  {
    hide HandlerAfter, RowsAfter, SessionsAfter, DrivesAfter;
  }

  /** What a handler told is on record. */
  lemma ToldIsNoted(cfg: Config, states: seq<State>, events: seq<Event>, id: nat, d: Deed)
    requires IsRun(cfg, states, events) && d in DeedsOf(states, events, id)
    requires d.Made? && (d.stage.Tell? || d.stage.TellAfter?)
    ensures Notice(d.stage.sid, d.stage.kind) in states[|events|].notices
  {
    DeedsHappen(cfg, states, events, id, d);
    hide RowsAfter, SessionsAfter;
    var k :| Happened(states, events, id, d, k);
    assert states[k+1].notices[|states[k].notices|] == Notice(d.stage.sid, d.stage.kind);
    NoticesStay(cfg, states, events, k + 1);
    assert states[|events|].notices[|states[k].notices|] == Notice(d.stage.sid, d.stage.kind);
  }

  // ---- What the parts of a handler do ----

  predicate Calls(d: Deed, stage: Stage) { d.Made? && d.stage == stage }

  predicate Failed(d: Deed) { d.Made? && d.choice.Fails? }

  /** The session, and then the record, which stays if the session's deletion failed. */
  predicate Clears(ds: seq<Deed>, sid: Sid, after: Option<Kind>) {
    && ds != [] && Calls(ds[0], DeleteSession(sid, after))
    && if Failed(ds[0]) then |ds| == 1 else |ds| == 2 && Calls(ds[1], DeleteRecord(sid, after))
  }

  /** The message while the record is there, and then the clearing. */
  predicate Reports(ds: seq<Deed>, sid: Sid, kind: Kind) {
    ds != [] && Calls(ds[0], Tell(sid, kind)) && Clears(ds[1..], sid, None)
  }

  /** The clearing, and then the message. */
  predicate GivesUp(ds: seq<Deed>, sid: Sid, kind: Kind) {
    ds != [] && Clears(ds[..|ds|-1], sid, Some(kind)) && Calls(ds[|ds|-1], TellAfter(sid, kind))
  }

  function ToPark(found: Option<ParkRecord>, w: Workflow, sid: Sid, key: string, callID: string, attempt: int):
      ParkRecord {
    var record := if found.Some? then found.value else Blank(sid);
    record.(workflow := w, prKey := key, callID := callID, attempts := attempt)
  }

  /** The record as it stands, or a new one, is written back with the key, the call and the attempt. */
  predicate Parks(ds: seq<Deed>, w: Workflow, sid: Sid, repo: string, key: string, callID: string, attempt: int,
      ok: bool) {
    && ds != [] && Calls(ds[0], ParkGet(sid, repo, key, callID, attempt))
    && if Failed(ds[0]) then |ds| == 1 && !ok
       else
         && |ds| == 2 && Calls(ds[1], ParkPut(sid, repo, ToPark(ds[0].seen, w, sid, key, callID, attempt)))
         && ok == !Failed(ds[1])
  }

  /** What follows a drive that came out as r. */
  predicate Concludes(ds: seq<Deed>, w: Workflow, sid: Sid, repo: string, attempt: int, r: DriveResult) {
    if r.DriveFailed? || r.applyError then GivesUp(ds, sid, CouldNotApply)
    else if r.clean then GivesUp(ds, sid, AlreadyClean)
    else if r.callID == "" || r.pr == 0 then GivesUp(ds, sid, CouldNotApply)
    else
      || Parks(ds, w, sid, repo, PRKey(repo, r.pr), r.callID, attempt, true)
      || exists n :: 0 <= n <= |ds| && Parks(ds[..n], w, sid, repo, PRKey(repo, r.pr), r.callID, attempt, false)
           && GivesUp(ds[n..], sid, CouldNotApply)
  }

  /** A drive, which the engine may fail to start, and what follows it. */
  predicate Runs(ds: seq<Deed>, w: Workflow, sid: Sid, repo: string, attempt: int) {
    && ds != [] && Calls(ds[0], StartDrive(sid, repo, attempt))
    && if Failed(ds[0]) then GivesUp(ds[1..], sid, CouldNotApply)
       else
         && |ds| > 1 && Calls(ds[1], Driving(sid, repo, attempt)) && ds[1].choice.Drives?
         && Concludes(ds[2..], w, sid, repo, attempt, ds[1].choice.result)
  }

  /** The new parameters are written if the record is there, and then comes the next drive. */
  predicate Retries(ds: seq<Deed>, w: Workflow, sid: Sid, repo: string, attempts: int) {
    && ds != [] && Calls(ds[0], RetryGet(sid, repo, attempts))
    && if ds[0].choice.Decodes? && ds[0].seen.Some? then
         && |ds| > 1
         && Calls(ds[1], RetryPut(sid, repo, attempts, ds[0].seen.value.(params := ds[0].choice.params)))
         && if Failed(ds[1]) then GivesUp(ds[2..], sid, CouldNotApply) else Runs(ds[2..], w, sid, repo, attempts + 1)
       else if ds[0].choice.Works? then Runs(ds[1..], w, sid, repo, attempts + 1)
       else GivesUp(ds[1..], sid, CouldNotApply)
  }

  // ---- What the handlers do ----

  predicate KicksOff(ds: seq<Deed>, id: nat, w: Workflow, repo: string, params: string, sid: Sid) {
    && |ds| > 1 && ds[0] == Arrived(KickoffArrives(id, w, repo, params, sid))
    && Calls(ds[1], PutParams(sid, repo, params))
    && if Failed(ds[1]) then |ds| == 2 else Runs(ds[2..], w, sid, repo, 1)
  }

  /** A check run: what is claimed is reported or tried again, by the conclusion and what is left. */
  predicate Resumes(ds: seq<Deed>, cfg: Config, id: nat, w: Workflow, repo: string, pr: int, success: bool) {
    && |ds| > 1 && ds[0] == Arrived(CheckRunArrives(id, w, repo, pr, success))
    && Calls(ds[1], Claim(PRKey(repo, pr), CheckRun(repo, success)))
    && if ds[1].choice.Wins? && ds[1].seen.Some? then
         var run := ds[1].seen.value;
         if success then Reports(ds[2..], run.sessionID, Success)
         else if run.attempts >= cfg.maxIter then Reports(ds[2..], run.sessionID, Exhausted)
         else Retries(ds[2..], w, run.sessionID, repo, run.attempts)
       else |ds| == 2 && !ds[1].choice.Wins?
  }

  predicate TimesOut(ds: seq<Deed>, id: nat, w: Workflow, key: string) {
    && |ds| > 1 && ds[0] == Arrived(TimerFires(id, w, key)) && Calls(ds[1], Claim(key, SoftTimer))
    && if ds[1].choice.Wins? && ds[1].seen.Some? then Reports(ds[2..], ds[1].seen.value.sessionID, TimedOut)
       else |ds| == 2 && !ds[1].choice.Wins?
  }

  /** Claim after claim until none is left to make; those that fail are passed over. */
  predicate Sweeps(ds: seq<Deed>, cutoff: Time) {
    && ds != [] && (forall i :: 0 <= i < |ds| ==> Calls(ds[i], SweepClaim(cutoff)))
    && (forall i :: 0 <= i < |ds| ==> (ds[i].choice.FindsNothing? <==> i == |ds| - 1))
  }

  /** The sessions won, in order. */
  function Won(ds: seq<Deed>): seq<Sid> {
    if ds == [] then []
    else
      var d := ds[|ds|-1];
      Won(ds[..|ds|-1]) + if d.Made? && d.choice.Wins? then [d.choice.sid] else []
  }

  /** Each of the sessions is reported and cleared, in order. */
  predicate ReportsAll(ds: seq<Deed>, sids: seq<Sid>, kind: Kind)
    decreases |sids|
  {
    if sids == [] then ds == []
    else
      var n := |sids| - 1;
      exists m :: 0 <= m <= |ds| && ReportsAll(ds[..m], sids[..n], kind) && Reports(ds[m..], sids[n], kind)
  }

  predicate ClearsAll(ds: seq<Deed>, sids: seq<Sid>)
    decreases |sids|
  {
    if sids == [] then ds == []
    else
      var n := |sids| - 1;
      exists m :: 0 <= m <= |ds| && ClearsAll(ds[..m], sids[..n]) && Clears(ds[m..], sids[n], None)
  }

  /** All that the sweep claimed is reported and cleared. */
  predicate SweepsTimeouts(ds: seq<Deed>, id: nat, w: Workflow, cutoff: Time) {
    && ds != [] && ds[0] == Arrived(TimeoutSweepStarts(id, w))
    && exists n :: 1 <= n <= |ds| && Sweeps(ds[1..n], cutoff) && ReportsAll(ds[n..], Won(ds[1..n]), TimedOut)
  }

  /** All that the scan listed is cleared, and nothing is said. */
  predicate SweepsOrphans(ds: seq<Deed>, id: nat, w: Workflow, cutoff: Time) {
    && |ds| > 1 && ds[0] == Arrived(OrphanSweepStarts(id, w)) && Calls(ds[1], OrphanScan(cutoff))
    && ClearsAll(ds[2..], if ds[1].choice.Lists? then ds[1].choice.sids else [])
  }

  // ---- What follows from that ----

  predicate Says(d: Deed) { d.Made? && (d.stage.Tell? || d.stage.TellAfter?) }

  lemma InParts(ds: seq<Deed>, m: int, d: Deed)
    requires 0 <= m <= |ds| && d in ds
    ensures d in ds[..m] || d in ds[m..]
  {
    var i :| 0 <= i < |ds| && ds[i] == d;
    assert i >= m ==> ds[m..][i - m] == d;
  }

  predicate Deletes(d: Deed) { d.Made? && (d.stage.DeleteSession? || d.stage.DeleteRecord?) }

  lemma ClearsDeletes(ds: seq<Deed>, sid: Sid, after: Option<Kind>, d: Deed)
    requires Clears(ds, sid, after) && d in ds
    ensures Deletes(d)
  {
  }

  lemma {:induction false} ClearingDeletes(ds: seq<Deed>, sids: seq<Sid>, d: Deed)
    requires ClearsAll(ds, sids) && d in ds
    ensures Deletes(d)
    decreases |sids|
  {
    hide Clears, Deletes;
    var n := |sids| - 1;
    var m :| 0 <= m <= |ds| && ClearsAll(ds[..m], sids[..n]) && Clears(ds[m..], sids[n], None);
    InParts(ds, m, d);
    if d in ds[..m] {
      ClearingDeletes(ds[..m], sids[..n], d);
    } else {
      ClearsDeletes(ds[m..], sids[n], None, d);
    }
  }

  /** An orphan sweep says nothing. */
  lemma OrphansAreSilent(ds: seq<Deed>, id: nat, w: Workflow, cutoff: Time, d: Deed)
    requires SweepsOrphans(ds, id, w, cutoff) && d in ds
    ensures !Says(d)
  {
    hide ClearsAll;
    InParts(ds, 2, d);
    if d in ds[2..] {
      ClearingDeletes(ds[2..], if ds[1].choice.Lists? then ds[1].choice.sids else [], d);
    }
  }

  lemma {:induction false} ReportsAreMade(ds: seq<Deed>, sids: seq<Sid>, kind: Kind, x: Sid)
    requires ReportsAll(ds, sids, kind) && x in sids
    ensures exists d :: d in ds && Calls(d, Tell(x, kind))
    decreases |sids|
  {
    var n := |sids| - 1;
    var m :| 0 <= m <= |ds| && ReportsAll(ds[..m], sids[..n], kind) && Reports(ds[m..], sids[n], kind);
    if x == sids[n] {
      assert ds[m..][0] == ds[m] && ds[m] in ds;
    } else {
      ReportsAreMade(ds[..m], sids[..n], kind, x);
      var d :| d in ds[..m] && Calls(d, Tell(x, kind));
      assert d in ds;
    }
  }

  lemma {:induction false} WonAreWins(ds: seq<Deed>, d: Deed)
    requires d in ds && d.Made? && d.choice.Wins?
    ensures d.choice.sid in Won(ds)
    decreases |ds|
  {
    if d in ds[..|ds|-1] {
      WonAreWins(ds[..|ds|-1], d);
    } else {
      assert ds == ds[..|ds|-1] + [ds[|ds|-1]];
    }
  }

  lemma ReportDeeds(ds: seq<Deed>, sid: Sid, kind: Kind, d: Deed)
    requires Reports(ds, sid, kind) && d in ds
    ensures Deletes(d) || Calls(d, Tell(sid, kind))
  {
    hide Clears, Deletes;
    InParts(ds, 1, d);
    if d in ds[1..] {
      ClearsDeletes(ds[1..], sid, None, d);
    }
  }

  lemma {:induction false} ReportingClaimsNothing(ds: seq<Deed>, sids: seq<Sid>, kind: Kind, d: Deed)
    requires ReportsAll(ds, sids, kind) && d in ds
    ensures d.Made? && !d.stage.SweepClaim?
    decreases |sids|
  {
    var n := |sids| - 1;
    var m :| 0 <= m <= |ds| && ReportsAll(ds[..m], sids[..n], kind) && Reports(ds[m..], sids[n], kind);
    hide Reports;
    InParts(ds, m, d);
    if d in ds[..m] {
      ReportingClaimsNothing(ds[..m], sids[..n], kind, d);
    } else {
      ReportDeeds(ds[m..], sids[n], kind, d);
    }
  }

  /** Whatever a timeout sweep claims, it reports. */
  lemma WinsAreReported(ds: seq<Deed>, id: nat, w: Workflow, cutoff: Time, d: Deed)
    requires SweepsTimeouts(ds, id, w, cutoff) && d in ds && d.Made? && d.stage.SweepClaim? && d.choice.Wins?
    ensures exists t :: t in ds && Calls(t, Tell(d.choice.sid, TimedOut))
  {
    var n :| 1 <= n <= |ds| && Sweeps(ds[1..n], cutoff) && ReportsAll(ds[n..], Won(ds[1..n]), TimedOut);
    hide Sweeps, ReportsAll, Won;
    InParts(ds, n, d);
    if d in ds[n..] {
      ReportingClaimsNothing(ds[n..], Won(ds[1..n]), TimedOut, d);
    } else {
      InParts(ds[..n], 1, d);
      assert ds[..n][..1] == [ds[0]] && ds[..n][1..] == ds[1..n];
      WonAreWins(ds[1..n], d);
      ReportsAreMade(ds[n..], Won(ds[1..n]), TimedOut, d.choice.sid);
      var t :| t in ds[n..] && Calls(t, Tell(d.choice.sid, TimedOut));
      assert t in ds;
    }
  }
}
