/** The retry budget. The store's attempt counter is the number of drives made so far, so no run is
    ever driven more than MaxIter times, and one is reported exhausted exactly at the limit. */
module FixRunAttempts {
  import opened Wrappers
  import opened ParkColumns
  import opened FixRuns
  import opened FixRunOwnership

  /** A stage's attempt number agrees with the drives made of its session. */
  predicate StagePaced(cfg: Config, drives: map<Sid, nat>, stage: Stage) {
    match stage
    case PutParams(x, _, _) => Count(drives, x) == 0
    case StartDrive(x, _, a) => Count(drives, x) == a - 1 && 1 <= a <= cfg.maxIter
    case Driving(x, _, a) => Count(drives, x) == a && 1 <= a <= cfg.maxIter
    case ParkGet(x, _, _, _, a) => Count(drives, x) == a && 1 <= a <= cfg.maxIter
    case ParkPut(x, _, r) => Count(drives, x) == r.attempts && 1 <= r.attempts <= cfg.maxIter
    case RetryGet(x, _, a) => Count(drives, x) == a && 1 <= a < cfg.maxIter
    case RetryPut(x, _, a, r) => Count(drives, x) == a && 1 <= a < cfg.maxIter
    case Tell(x, kind) => kind == Exhausted ==> Count(drives, x) == cfg.maxIter
    case DeleteSession(x, after) => after != Some(Exhausted)
    case DeleteRecord(x, after) => after != Some(Exhausted)
    case TellAfter(x, kind) => kind != Exhausted
    case _ => true
  }

  predicate RowPaced(cfg: Config, s: State, x: Sid) {
    Parked(s.rows, x) ==> s.rows[x].attempts == Count(s.drives, x) && 1 <= s.rows[x].attempts <= cfg.maxIter
  }

  predicate NoticePaced(cfg: Config, s: State, n: Notice) {
    n.kind == Exhausted ==> Count(s.drives, n.sid) == cfg.maxIter
  }

  ghost predicate Paced(cfg: Config, s: State) {
    && (forall x :: Count(s.drives, x) <= if x in s.homes then cfg.maxIter else 0)
    && (forall x :: RowPaced(cfg, s, x))
    && (forall id :: id in s.handlers ==> StagePaced(cfg, s.drives, s.handlers[id].stage))
    && (forall n :: n in s.notices ==> NoticePaced(cfg, s, n))
  }

  lemma OtherStaysPaced(cfg: Config, s: State, id: nat, j: nat)
    requires Owned(s) && Paced(cfg, s) && id in s.handlers && j in s.handlers && j != id
    ensures StagePaced(cfg, DrivesAfter(s, s.handlers[id]), s.handlers[j].stage)
  {
    var h, g := s.handlers[id], s.handlers[j];
    assert StagePaced(cfg, s.drives, g.stage);
    assert h.stage.StartDrive? ==> HeldBy(s, id, h.stage.sid) + HeldBy(s, j, h.stage.sid) <= 1;
  }

  lemma RowStaysPaced(cfg: Config, s: State, id: nat, c: Choice, x: Sid)
    requires Owned(s) && Paced(cfg, s) && CanAct(s, id, c)
    ensures RowPaced(cfg, ActStep(cfg, s, id, c), x)
  {
    var h := s.handlers[id];
    assert StagePaced(cfg, s.drives, h.stage) && RowPaced(cfg, s, x);
    ParkedOrigin(s, id, c, x);
    if h.stage.StartDrive? {
      HeldIsNotParked(s, id, h.stage.sid);
    }
  }

  /** Going on to the next of a sweep starts no drive and reports nothing exhausted. */
  lemma FinishIsPaced(cfg: Config, drives: map<Sid, nat>, h: Handler)
    ensures Finish(h).Some? ==> StagePaced(cfg, drives, Finish(h).value.stage)
  {
  }

  ghost predicate PacedAfter(cfg: Config, s: State, id: nat, c: Choice)
    requires CanAct(s, id, c)
  {
    var h' := HandlerAfter(cfg, s, s.handlers[id], c);
    h'.Some? ==> StagePaced(cfg, DrivesAfter(s, s.handlers[id]), h'.value.stage)
  }

  lemma ClaimStaysPaced(cfg: Config, s: State, id: nat, c: Choice)
    requires WellKeyed(s.rows) && Paced(cfg, s) && CanAct(s, id, c) && s.handlers[id].stage.Claim?
    ensures PacedAfter(cfg, s, id, c)
  {
    assert c.Wins? ==> RowPaced(cfg, s, c.sid) && Parked(s.rows, c.sid) && s.rows[c.sid].sessionID == c.sid;
    FinishIsPaced(cfg, s.drives, s.handlers[id]);
    hide Paced, Holders, Finish, WellKeyed;
  }

  lemma DriveStaysPaced(cfg: Config, s: State, id: nat, c: Choice)
    requires cfg.maxIter >= 1 && Paced(cfg, s) && CanAct(s, id, c)
    requires var t := s.handlers[id].stage; t.PutParams? || t.StartDrive? || t.Driving? || t.ParkGet? || t.ParkPut?
    ensures PacedAfter(cfg, s, id, c)
  {
    var h := s.handlers[id];
    assert StagePaced(cfg, s.drives, h.stage);
    FinishIsPaced(cfg, s.drives, h);
    hide Paced, Finish;
  }

  lemma HandlerIsPaced(cfg: Config, s: State, id: nat)
    requires Paced(cfg, s) && id in s.handlers
    ensures StagePaced(cfg, s.drives, s.handlers[id].stage)
  {
  }

  lemma RestStaysPaced(cfg: Config, s: State, id: nat, c: Choice)
    requires Paced(cfg, s) && CanAct(s, id, c)
    requires var t := s.handlers[id].stage;
             !t.Claim? && !t.PutParams? && !t.StartDrive? && !t.Driving? && !t.ParkGet? && !t.ParkPut?
    ensures PacedAfter(cfg, s, id, c)
  {
    hide Paced, Finish, Orphaned, StaleSids, Holders, Parked, Count;
    var h := s.handlers[id];
    HandlerIsPaced(cfg, s, id);
    FinishIsPaced(cfg, s.drives, h);
    if c.Lists? {
      FinishIsPaced(cfg, s.drives, h.(queue := c.sids));
    }
  }

  lemma ActorStaysPaced(cfg: Config, s: State, id: nat, c: Choice)
    requires cfg.maxIter >= 1 && Owned(s) && Paced(cfg, s) && CanAct(s, id, c)
    ensures PacedAfter(cfg, s, id, c)
  {
    assert id in s.handlers && WellKeyed(s.rows);
    hide PacedAfter, Paced, CanAct, Owned, WellKeyed;
    match s.handlers[id].stage
    case Claim(_, _) => ClaimStaysPaced(cfg, s, id, c);
    case PutParams(_, _, _) => DriveStaysPaced(cfg, s, id, c);
    case StartDrive(_, _, _) => DriveStaysPaced(cfg, s, id, c);
    case Driving(_, _, _) => DriveStaysPaced(cfg, s, id, c);
    case ParkGet(_, _, _, _, _) => DriveStaysPaced(cfg, s, id, c);
    case ParkPut(_, _, _) => DriveStaysPaced(cfg, s, id, c);
    case _ => RestStaysPaced(cfg, s, id, c);
  }

  lemma NoticesStayPaced(cfg: Config, s: State, id: nat, c: Choice, n: Notice)
    requires Owned(s) && Paced(cfg, s) && CanAct(s, id, c) && n in ActStep(cfg, s, id, c).notices
    ensures NoticePaced(cfg, ActStep(cfg, s, id, c), n)
  {
    var h := s.handlers[id];
    assert StagePaced(cfg, s.drives, h.stage);
    if n in s.notices {
      assert NoticePaced(cfg, s, n);
      if h.stage.StartDrive? {
        HeldIsNotParked(s, id, h.stage.sid);
        var i :| 0 <= i < |s.notices| && s.notices[i] == n;
        OneNoticeCounts(s.notices, i);
      }
    }
  }

  lemma ActKeepsPaced(cfg: Config, s: State, id: nat, c: Choice)
    requires cfg.maxIter >= 1 && Owned(s) && Paced(cfg, s) && CanAct(s, id, c)
    ensures Paced(cfg, ActStep(cfg, s, id, c))
  {
    var s' := ActStep(cfg, s, id, c);
    var h := s.handlers[id];
    assert StagePaced(cfg, s.drives, h.stage);
    if h.stage.StartDrive? {
      HeldIsNotParked(s, id, h.stage.sid);
    }
    forall x ensures Count(s'.drives, x) <= if x in s'.homes then cfg.maxIter else 0 {
      assert Count(s.drives, x) <= if x in s.homes then cfg.maxIter else 0;
    }
    forall x ensures RowPaced(cfg, s', x) { RowStaysPaced(cfg, s, id, c, x); }
    ActorStaysPaced(cfg, s, id, c);
    forall j | j in s'.handlers ensures StagePaced(cfg, s'.drives, s'.handlers[j].stage) {
      if j != id { OtherStaysPaced(cfg, s, id, j); }
    }
    forall n | n in s'.notices ensures NoticePaced(cfg, s', n) { NoticesStayPaced(cfg, s, id, c, n); }
  }

  lemma ArrivalStaysPaced(cfg: Config, s: State, e: Event, j: nat)
    requires Paced(cfg, s) && Enabled(s, e) && !e.Act? && j in Next(cfg, s, e).handlers
    ensures StagePaced(cfg, s.drives, Next(cfg, s, e).handlers[j].stage)
  {
    if e.KickoffArrives? {
      assert Count(s.drives, e.sid) <= 0;
    }
    if j in s.handlers {
      assert StagePaced(cfg, s.drives, s.handlers[j].stage);
    }
  }

  lemma StepKeepsPaced(cfg: Config, s: State, e: Event)
    requires cfg.maxIter >= 1 && Owned(s) && Paced(cfg, s) && Enabled(s, e)
    ensures Paced(cfg, Next(cfg, s, e))
  {
    if e.Act? {
      ActKeepsPaced(cfg, s, e.id, e.choice);
    } else {
      var s' := Next(cfg, s, e);
      ArrivalTokens(cfg, s, e, 0, "");
      assert s'.drives == s.drives;
      forall x
        ensures RowPaced(cfg, s', x)
        ensures Count(s'.drives, x) <= if x in s'.homes then cfg.maxIter else 0
      {
        assert RowPaced(cfg, s, x);
        assert Count(s.drives, x) <= if x in s.homes then cfg.maxIter else 0;
      }
      forall j | j in s'.handlers ensures StagePaced(cfg, s'.drives, s'.handlers[j].stage) {
        ArrivalStaysPaced(cfg, s, e, j);
      }
      forall n | n in s'.notices ensures NoticePaced(cfg, s', n) {
        assert NoticePaced(cfg, s, n);
      }
    }
  }

  lemma {:induction false} PacedThroughout(cfg: Config, states: seq<State>, events: seq<Event>, n: nat)
    requires cfg.maxIter >= 1 && IsRun(cfg, states, events) && n < |states|
    ensures Paced(cfg, states[n])
  {
    if n > 0 {
      OwnedThroughout(cfg, states, events, n - 1);
      PacedThroughout(cfg, states, events, n - 1);
      StepKeepsPaced(cfg, states[n-1], events[n-1]);
    }
  }

  /** Main result: whatever CI reports, how often and to whom, no run is driven more than MaxIter
      times. A parked record carries the number of drives made, so MaxIter minus it is what is left. */
  lemma DrivesAreBounded(cfg: Config, states: seq<State>, events: seq<Event>, n: nat, x: Sid)
    requires cfg.maxIter >= 1 && IsRun(cfg, states, events) && n < |states|
    ensures Count(states[n].drives, x) <= cfg.maxIter
    ensures Parked(states[n].rows, x) ==> states[n].rows[x].attempts == Count(states[n].drives, x)
  {
    PacedThroughout(cfg, states, events, n);
    assert RowPaced(cfg, states[n], x);
    assert Count(states[n].drives, x) <= if x in states[n].homes then cfg.maxIter else 0;
  }

  /** Main result: a run is reported as exhausted only after exactly MaxIter drives. */
  lemma ExhaustedMeansMaxIter(cfg: Config, states: seq<State>, events: seq<Event>, n: nat, i: nat)
    requires cfg.maxIter >= 1 && IsRun(cfg, states, events) && n < |states|
    requires i < |states[n].notices| && states[n].notices[i].kind == Exhausted
    ensures Count(states[n].drives, states[n].notices[i].sid) == cfg.maxIter
  {
    PacedThroughout(cfg, states, events, n);
    assert NoticePaced(cfg, states[n], states[n].notices[i]);
  }

  /** What is left of a run's budget. It falls by one with each drive that starts and is never below
      zero, so a run of CI failures, duplicates included, comes to an end. */
  function Left(cfg: Config, s: State, x: Sid): int { cfg.maxIter - Count(s.drives, x) }

  lemma RetriesUseUpTheBudget(cfg: Config, s: State, id: nat, c: Choice, x: Sid)
    requires cfg.maxIter >= 1 && Owned(s) && Paced(cfg, s) && CanAct(s, id, c)
    ensures var s' := ActStep(cfg, s, id, c);
            && 0 <= Left(cfg, s', x) <= Left(cfg, s, x)
            && (Left(cfg, s', x) < Left(cfg, s, x) <==>
                s.handlers[id].stage.StartDrive? && s.handlers[id].stage.sid == x)
            // a failed check that wins a run with nothing left ends it; otherwise another drive is due
            && (s.handlers[id].stage.Claim? && c == Wins(x) && s.handlers[id].stage.cause.CheckRun?
                && !s.handlers[id].stage.cause.success ==>
                  s'.handlers[id].stage == (if Left(cfg, s, x) == 0 then Tell(x, Exhausted)
                                            else RetryGet(x, s.handlers[id].stage.cause.repo, Count(s.drives, x))))
  {
    ActKeepsPaced(cfg, s, id, c);
    var s' := ActStep(cfg, s, id, c);
    assert Count(s'.drives, x) <= if x in s'.homes then cfg.maxIter else 0;
    assert RowPaced(cfg, s, x);
  }
}
