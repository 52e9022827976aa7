/** What a notification says is so. Each kind goes back to a step of the run that gives the cause for it,
    and the two that are about a check run go back to a check run of that pull request. */
module FixRunCauses {
  import opened Wrappers
  import opened ParkColumns
  import opened FixRuns
  import opened FixRunOwnership

  /** A drive that leaves nothing to wait for, and was not clean. */
  predicate Unusable(r: DriveResult) {
    r.DriveFailed? || r.applyError || (!r.clean && (r.callID == "" || r.pr == 0))
  }

  /** The step gives a cause for telling of the session in this way. */
  predicate Causes(cfg: Config, s: State, e: Event, x: Sid, kind: Kind) {
    && e.Act? && CanAct(s, e.id, e.choice)
    && var stage, c := s.handlers[e.id].stage, e.choice;
    match kind
    case Success => c == Wins(x) && stage.Claim? && stage.cause.CheckRun? && stage.cause.success
    case Exhausted =>
      && c == Wins(x) && stage.Claim? && stage.cause.CheckRun? && !stage.cause.success
      && x in s.rows && s.rows[x].attempts >= cfg.maxIter
    case TimedOut => c == Wins(x) && (stage.SweepClaim? || (stage.Claim? && stage.cause.SoftTimer?))
    case AlreadyClean =>
      && stage.Driving? && stage.sid == x && c.Drives? && c.result.DriveEnded?
      && !c.result.applyError && c.result.clean
    case CouldNotApply =>
      || (c.Fails? && Owed(stage) == Some(x)
          && (stage.StartDrive? || stage.ParkGet? || stage.ParkPut? || stage.RetryGet? || stage.RetryPut?))
      || (stage.Driving? && stage.sid == x && c.Drives? && Unusable(c.result))
  }

  ghost predicate Caused(cfg: Config, states: seq<State>, events: seq<Event>, n: nat, x: Sid, kind: Kind)
    requires |states| == |events| + 1 && n <= |events|
  {
    exists k :: 0 <= k < n && Causes(cfg, states[k], events[k], x, kind)
  }

  /** What a handler is going to tell. */
  function Due(stage: Stage): Option<Notice> {
    match stage
    case Tell(x, kind) => Some(Notice(x, kind))
    case TellAfter(x, kind) => Some(Notice(x, kind))
    case DeleteSession(x, after) => if after.Some? then Some(Notice(x, after.value)) else None
    case DeleteRecord(x, after) => if after.Some? then Some(Notice(x, after.value)) else None
    case _ => None
  }

  /** One step of a handler: what it is going to tell it was going to tell before, or the step is the cause
      for it, or it comes up in its sweep. */
  lemma DueStep(cfg: Config, s: State, id: nat, c: Choice)
    requires Owned(s) && CanAct(s, id, c)
    ensures var h := s.handlers[id];
            var h' := HandlerAfter(cfg, s, h, c);
            h'.Some? ==>
              && h'.value.reaping == h.reaping
              && (Due(h'.value.stage).Some? ==>
                    var due := Due(h'.value.stage).value;
                    || Due(h.stage) == Some(due) || Causes(cfg, s, Act(id, c), due.sid, due.kind)
                    || (due.kind.TimedOut? && !h.reaping && due.sid in h.queue))
    ensures forall d :: d in Said(s.handlers[id].stage) ==> Due(s.handlers[id].stage) == Some(d)
  {
    var h := s.handlers[id];
    assert HandlerOk(h);
    if c.Wins? { assert s.rows[c.sid].sessionID == c.sid; }
    hide Owned, PRKey;
  }

  lemma QueueStep(cfg: Config, s: State, id: nat, c: Choice, y: Sid)
    requires Owned(s) && CanAct(s, id, c)
    ensures var h := s.handlers[id];
            var h' := HandlerAfter(cfg, s, h, c);
            h'.Some? && !h'.value.reaping && y in h'.value.queue ==>
              y in h.queue || Causes(cfg, s, Act(id, c), y, TimedOut)
  {
    assert HandlerOk(s.handlers[id]);
    hide Owned, PRKey;
  }

  /** All that a handler is going to tell has been caused. */
  ghost predicate Justified(cfg: Config, states: seq<State>, events: seq<Event>, n: nat, h: Handler)
    requires |states| == |events| + 1 && n <= |events|
  {
    && (Due(h.stage).Some? ==> Caused(cfg, states, events, n, Due(h.stage).value.sid, Due(h.stage).value.kind))
    && (!h.reaping ==> forall y :: y in h.queue ==> Caused(cfg, states, events, n, y, TimedOut))
  }

  ghost predicate AllJustified(cfg: Config, states: seq<State>, events: seq<Event>, n: nat)
    requires |states| == |events| + 1 && n <= |events|
  {
    && (forall id :: id in states[n].handlers ==> Justified(cfg, states, events, n, states[n].handlers[id]))
    && (forall d :: d in states[n].notices ==> Caused(cfg, states, events, n, d.sid, d.kind))
  }

  lemma CausedStays(cfg: Config, states: seq<State>, events: seq<Event>, n: nat, x: Sid, kind: Kind)
    requires |states| == |events| + 1 && n < |events|
    ensures Caused(cfg, states, events, n, x, kind) ==> Caused(cfg, states, events, n + 1, x, kind)
    ensures Causes(cfg, states[n], events[n], x, kind) ==> Caused(cfg, states, events, n + 1, x, kind)
  {
    hide Causes;
  }

  lemma JustifiedStays(cfg: Config, states: seq<State>, events: seq<Event>, n: nat, h: Handler)
    requires |states| == |events| + 1 && n < |events| && Justified(cfg, states, events, n, h)
    ensures Justified(cfg, states, events, n + 1, h)
  {
    hide Caused;
    if Due(h.stage).Some? { CausedStays(cfg, states, events, n, Due(h.stage).value.sid, Due(h.stage).value.kind); }
    forall y | y in h.queue { CausedStays(cfg, states, events, n, y, TimedOut); }
  }

  lemma ActorStaysJustified(cfg: Config, states: seq<State>, events: seq<Event>, n: nat, id: nat, c: Choice)
    requires |states| == |events| + 1 && n < |events| && events[n] == Act(id, c) && CanAct(states[n], id, c)
    requires Owned(states[n]) && Justified(cfg, states, events, n, states[n].handlers[id])
    ensures var h' := HandlerAfter(cfg, states[n], states[n].handlers[id], c);
            h'.Some? ==> Justified(cfg, states, events, n + 1, h'.value)
  {
    var s := states[n];
    var h := s.handlers[id];
    var h' := HandlerAfter(cfg, s, h, c);
    DueStep(cfg, s, id, c);
    hide Caused, Causes, HandlerAfter, Owned, Said, CanAct, Due;
    if h'.Some? {
      if Due(h'.value.stage).Some? {
        var due := Due(h'.value.stage).value;
        CausedStays(cfg, states, events, n, due.sid, due.kind);
      }
      if !h'.value.reaping {
        forall y | y in h'.value.queue ensures Caused(cfg, states, events, n + 1, y, TimedOut) {
          QueueStep(cfg, s, id, c, y);
          CausedStays(cfg, states, events, n, y, TimedOut);
        }
      }
    }
  }

  lemma StartIsJustified(cfg: Config, states: seq<State>, events: seq<Event>, n: nat, w: Workflow,
      stage: Stage, reaping: bool)
    requires |states| == |events| + 1 && n <= |events| && Due(stage).None?
    ensures Justified(cfg, states, events, n, Handler(w, stage, reaping, []))
  {
  }

  lemma HandlerStaysJustified(cfg: Config, states: seq<State>, events: seq<Event>, n: nat, j: nat)
    requires IsRun(cfg, states, events) && n < |events| && AllJustified(cfg, states, events, n)
    requires j in states[n+1].handlers
    ensures Justified(cfg, states, events, n + 1, states[n+1].handlers[j])
  {
    var s, e := states[n], events[n];
    assert Enabled(s, e) && states[n+1] == Next(cfg, s, e);
    hide Justified, HandlerAfter, RowsAfter, SessionsAfter, DrivesAfter, Said, CanAct, PRKey;
    if e.Act? && e.id == j {
      OwnedThroughout(cfg, states, events, n);
      ActorStaysJustified(cfg, states, events, n, j, e.choice);
    } else if j in s.handlers {
      JustifiedStays(cfg, states, events, n, s.handlers[j]);
    } else {
      var h := states[n+1].handlers[j];
      StartIsJustified(cfg, states, events, n + 1, h.workflow, h.stage, h.reaping);
    }
  }

  lemma NoticeStaysCaused(cfg: Config, states: seq<State>, events: seq<Event>, n: nat, d: Notice)
    requires IsRun(cfg, states, events) && n < |events| && AllJustified(cfg, states, events, n)
    requires d in states[n+1].notices
    ensures Caused(cfg, states, events, n + 1, d.sid, d.kind)
  {
    var s, e := states[n], events[n];
    assert Enabled(s, e) && states[n+1] == Next(cfg, s, e);
    CausedStays(cfg, states, events, n, d.sid, d.kind);
    if d !in s.notices {
      OwnedThroughout(cfg, states, events, n);
      DueStep(cfg, s, e.id, e.choice);
      assert Justified(cfg, states, events, n, s.handlers[e.id]);
    }
    hide Caused, HandlerAfter, Owned, CanAct;
  }

  lemma {:induction false} JustifiedThroughout(cfg: Config, states: seq<State>, events: seq<Event>, n: nat)
    requires IsRun(cfg, states, events) && n < |states|
    ensures AllJustified(cfg, states, events, n)
  {
    if n > 0 {
      JustifiedThroughout(cfg, states, events, n - 1);
      hide Justified, Caused, IsRun;
      forall j | j in states[n].handlers ensures Justified(cfg, states, events, n, states[n].handlers[j]) {
        HandlerStaysJustified(cfg, states, events, n - 1, j);
      }
      forall d | d in states[n].notices ensures Caused(cfg, states, events, n, d.sid, d.kind) {
        NoticeStaysCaused(cfg, states, events, n - 1, d);
      }
    }
  }

  /** Main result: whatever is told of a run has happened. */
  lemma EveryNoticeIsTrue(cfg: Config, states: seq<State>, events: seq<Event>, n: nat, d: Notice)
    requires IsRun(cfg, states, events) && n < |states| && d in states[n].notices
    ensures exists k :: 0 <= k < n && Causes(cfg, states[k], events[k], d.sid, d.kind)
  {
    JustifiedThroughout(cfg, states, events, n);
    hide Justified, Causes;
    assert Caused(cfg, states, events, n, d.sid, d.kind);
  }

  // ---- Where a claim for a check run comes from ----

  /** A check run of this pull request arrived before, with this conclusion, for this engine. */
  ghost predicate Arrived(events: seq<Event>, n: nat, w: Workflow, key: string, success: bool)
    requires n <= |events|
  {
    exists j :: 0 <= j < n && events[j].CheckRunArrives? && events[j].workflow == w && events[j].success == success
      && PRKey(events[j].repo, events[j].pr) == key
  }

  predicate ClaimsForCheck(h: Handler) { h.stage.Claim? && h.stage.cause.CheckRun? }

  lemma NoNewClaims(cfg: Config, s: State, id: nat, c: Choice)
    requires CanAct(s, id, c)
    ensures var h' := HandlerAfter(cfg, s, s.handlers[id], c); h'.Some? ==> !h'.value.stage.Claim?
  {
  }

  lemma {:induction false} ClaimsComeFromChecks(cfg: Config, states: seq<State>, events: seq<Event>, n: nat, id: nat)
    requires IsRun(cfg, states, events) && n < |states|
    requires id in states[n].handlers && ClaimsForCheck(states[n].handlers[id])
    ensures var h := states[n].handlers[id]; Arrived(events, n, h.workflow, h.stage.key, h.stage.cause.success)
    decreases n
  {
    if n > 0 {
      var s, e := states[n-1], events[n-1];
      assert Enabled(s, e) && states[n-1+1] == Next(cfg, s, e);
      if e.Act? && e.id == id { NoNewClaims(cfg, s, id, e.choice); }
      hide HandlerAfter, RowsAfter, SessionsAfter, DrivesAfter, Said, CanAct, PRKey;
      if id in s.handlers && s.handlers[id] == states[n].handlers[id] {
        ClaimsComeFromChecks(cfg, states, events, n - 1, id);
      } else {
        assert e.CheckRunArrives? && e.id == id;
        assert Arrived(events, n, e.workflow, PRKey(e.repo, e.pr), e.success);
      }
    }
  }

  /** So success and exhaustion are told only of a run that was parked, under the key of a pull request of
      which a check run had arrived that says so, for the same engine. */
  lemma ChecksDecide(cfg: Config, states: seq<State>, events: seq<Event>, n: nat, d: Notice)
    requires IsRun(cfg, states, events) && n < |states| && d in states[n].notices
    requires d.kind == Success || d.kind == Exhausted
    ensures exists k :: 0 <= k < n && d.sid in states[k].rows
              && var r := states[k].rows[d.sid];
                 r.prKey != "" && Arrived(events, k, r.workflow, r.prKey, d.kind == Success)
  {
    EveryNoticeIsTrue(cfg, states, events, n, d);
    var k :| 0 <= k < n && Causes(cfg, states[k], events[k], d.sid, d.kind);
    ClaimsComeFromChecks(cfg, states, events, k, events[k].id);
    hide Arrived;
  }
}
