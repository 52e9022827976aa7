/** No ADK session is ever left without the park record that leads back to it. Params are written
    before the session starts and the session is deleted before the record, so this survives a crash
    or a failed delete at any point; what it needs is that the orphan sweep never lists a run that is
    still being driven. */
module FixRunSessions {
  import opened Wrappers
  import opened ParkColumns
  import opened FixRuns
  import opened FixRunOwnership

  function Subject(stage: Stage): Option<Sid> {
    match stage
    case DeleteSession(x, _) => Some(x)
    case DeleteRecord(x, _) => Some(x)
    case _ => Owed(stage)
  }

  /** The handler is driving x, from the first write to the park. */
  predicate Active(h: Handler, x: Sid) {
    Owed(h.stage) == Some(x)
    && !h.stage.Tell? && !h.stage.TellAfter? && !h.stage.DeleteSession? && !h.stage.DeleteRecord?
  }

  /** The handler is reporting on x or clearing it, or will be. */
  predicate Cleaning(h: Handler, x: Sid) {
    (Subject(h.stage) == Some(x) && !Active(h, x)) || x in h.queue
  }

  ghost predicate Idle(s: State, x: Sid) {
    !Parked(s.rows, x) && forall j :: j in s.handlers ==> !Active(s.handlers[j], x)
  }

  /** Rows and handlers stay with the engine that minted the session. */
  ghost predicate Homed(s: State) {
    && (forall x :: x in s.rows ==> x in s.homes && s.rows[x].workflow == s.homes[x])
    && (forall id :: id in s.handlers ==> HandlerHomed(s, s.handlers[id]))
  }

  ghost predicate HandlerHomed(s: State, h: Handler) {
    && (forall x :: Active(h, x) || Cleaning(h, x) ==> x in s.homes && s.homes[x] == h.workflow)
    && match h.stage
       case ParkPut(_, _, r) => r.workflow == h.workflow
       case RetryPut(_, _, _, r) => r.workflow == h.workflow
       case _ => true
  }

  ghost predicate SessionsHaveRecords(s: State) {
    forall p :: p in s.sessions ==> p.1 in s.rows && s.rows[p.1].workflow == p.0
  }

  /** What a handler relies on: the run it drives has a record (none before params are written), the
      run it clears is idle, and the record goes only after the session. */
  ghost predicate HandlerSafe(s: State, h: Handler) {
    && (forall x :: Active(h, x) ==> (x in s.rows <==> !h.stage.PutParams?))
    && (forall x :: Cleaning(h, x) ==> Idle(s, x))
    && (h.stage.DeleteRecord? ==> (h.workflow, h.stage.sid) !in s.sessions)
  }

  ghost predicate Traceable(s: State) {
    && Homed(s)
    && SessionsHaveRecords(s)
    && (forall id :: id in s.handlers ==> HandlerSafe(s, s.handlers[id]))
  }

  /** The orphan sweep lists no run that a handler is driving. */
  ghost predicate ReapsOnlyIdle(s: State, e: Event) {
    e.Act? && e.choice.Lists? ==> forall x, j :: x in e.choice.sids && j in s.handlers ==> !Active(s.handlers[j], x)
  }

  /** The session the acting handler goes on with: one it was driving or clearing, or one it has just
      claimed or listed. */
  lemma TakesUp(cfg: Config, s: State, id: nat, c: Choice, x: Sid)
    requires WellKeyed(s.rows) && CanAct(s, id, c)
    ensures var h := s.handlers[id];
            var h' := HandlerAfter(cfg, s, h, c);
            h'.Some? ==>
              && h'.value.workflow == h.workflow
              && (Active(h'.value, x) ==>
                  !h'.value.stage.PutParams? && (Active(h, x) || (h.stage.Claim? && c == Wins(x))))
              && (Cleaning(h'.value, x) ==> Cleaning(h, x) || Active(h, x) || c == Wins(x) || (c.Lists? && x in c.sids))
  {
  }

  /** A session with no handler driving it and no park is never driven again. */
  lemma StaysIdle(cfg: Config, s: State, id: nat, c: Choice, x: Sid)
    requires Owned(s) && CanAct(s, id, c) && Idle(s, x)
    ensures Idle(ActStep(cfg, s, id, c), x)
  {
    TakesUp(cfg, s, id, c, x);
    ParkedOrigin(s, id, c, x);
    assert HandlerOk(s.handlers[id]);
    assert !Active(s.handlers[id], x);
    if c.Wins? { assert Parked(s.rows, c.sid); }
  }

  /** A driven session has one driver. */
  lemma OneDriver(s: State, i: nat, j: nat, x: Sid)
    requires Owned(s) && i in s.handlers && j in s.handlers && Active(s.handlers[i], x) && Active(s.handlers[j], x)
    ensures i == j
  {
    assert i != j ==> HeldBy(s, i, x) + HeldBy(s, j, x) <= 1;
  }

  lemma DrivenIsNotParked(s: State, i: nat, x: Sid)
    requires Owned(s) && i in s.handlers && Active(s.handlers[i], x)
    ensures !Parked(s.rows, x)
  {
    HeldIsNotParked(s, i, x);
  }

  /** A handler that turns to clearing a session is through with driving it and has not parked it. */
  lemma TurnsToClearing(cfg: Config, s: State, id: nat, c: Choice, x: Sid)
    requires WellKeyed(s.rows) && CanAct(s, id, c)
    requires !Cleaning(s.handlers[id], x) && !(Active(s.handlers[id], x) && Parked(s.rows, x))
    ensures var h := s.handlers[id];
            var h' := HandlerAfter(cfg, s, h, c);
            h'.Some? && Cleaning(h'.value, x) ==> !Active(h'.value, x) && !Parked(RowsAfter(s, h, c), x)
  {
  }

  /** What the acting handler turns to clearing is idle from then on. */
  lemma ActorCleansIdle(cfg: Config, s: State, id: nat, c: Choice, x: Sid)
    requires Owned(s) && Traceable(s) && CanAct(s, id, c) && ReapsOnlyIdle(s, Act(id, c))
    requires id in ActStep(cfg, s, id, c).handlers && Cleaning(ActStep(cfg, s, id, c).handlers[id], x)
    ensures Idle(ActStep(cfg, s, id, c), x)
  {
    hide HandlerAfter, Cleaning, Finish, Homed, SessionsHaveRecords;
    var s' := ActStep(cfg, s, id, c);
    var h, h' := s.handlers[id], s'.handlers[id];
    TakesUp(cfg, s, id, c, x);
    assert HandlerSafe(s, h);
    if Idle(s, x) {
      StaysIdle(cfg, s, id, c, x);
    } else {
      if Active(h, x) {
        DrivenIsNotParked(s, id, x);
      }
      TurnsToClearing(cfg, s, id, c, x);
      forall j | j in s'.handlers ensures !Active(s'.handlers[j], x) {
        if j != id && Active(s.handlers[j], x) {
          DrivenIsNotParked(s, j, x);
          if Active(h, x) { OneDriver(s, id, j, x); }
        }
      }
    }
  }

  /** A row is the one that stood there, up to a cleared key, or the one the handler wrote for its own
      session. */
  lemma RowOrigin(s: State, id: nat, c: Choice, x: Sid)
    requires CanAct(s, id, c) && HandlerOk(s.handlers[id]) && x in RowsAfter(s, s.handlers[id], c)
    ensures var h := s.handlers[id];
            var r := RowsAfter(s, h, c)[x];
            || (x in s.rows && (r == s.rows[x] || r == Unpark(s.rows[x])))
            || (h.stage.PutParams? && h.stage.sid == x && r == Stamped(Fresh(h), s.now))
            || ((h.stage.ParkPut? || h.stage.RetryPut?) && h.stage.sid == x && r == Stamped(h.stage.record, s.now))
  {
  }

  lemma RowsStayHomed(cfg: Config, s: State, id: nat, c: Choice, x: Sid)
    requires Owned(s) && Homed(s) && CanAct(s, id, c) && x in RowsAfter(s, s.handlers[id], c)
    ensures x in s.homes && RowsAfter(s, s.handlers[id], c)[x].workflow == s.homes[x]
  {
    var h := s.handlers[id];
    assert HandlerOk(h) && HandlerHomed(s, h);
    RowOrigin(s, id, c, x);
    assert Active(h, x) ==> x in s.homes && s.homes[x] == h.workflow;
    hide RowsAfter;
  }

  /** What the acting handler goes on with belongs to its engine. */
  lemma TakesUpItsOwn(cfg: Config, s: State, id: nat, c: Choice, x: Sid)
    requires Owned(s) && Homed(s) && CanAct(s, id, c)
    ensures var h' := HandlerAfter(cfg, s, s.handlers[id], c);
            h'.Some? && (Active(h'.value, x) || Cleaning(h'.value, x)) ==>
                x in s.homes && s.homes[x] == s.handlers[id].workflow
  {
    TakesUp(cfg, s, id, c, x);
    assert HandlerHomed(s, s.handlers[id]);
    hide HandlerAfter, Active, Cleaning, Owned;
  }

  lemma WritesItsOwn(cfg: Config, s: State, id: nat, c: Choice)
    requires Owned(s) && Homed(s) && CanAct(s, id, c)
    ensures var h' := HandlerAfter(cfg, s, s.handlers[id], c);
            && (h'.Some? ==> h'.value.workflow == s.handlers[id].workflow)
            && (h'.Some? && (h'.value.stage.ParkPut? || h'.value.stage.RetryPut?) ==>
                h'.value.stage.record.workflow == h'.value.workflow)
  {
    var h := s.handlers[id];
    assert HandlerHomed(s, h);
    assert h.stage.RetryGet? ==> Active(h, h.stage.sid);
    hide Owned, Cleaning;
  }

  lemma ActorStaysHomed(cfg: Config, s: State, id: nat, c: Choice)
    requires Owned(s) && Homed(s) && CanAct(s, id, c)
    ensures var h' := HandlerAfter(cfg, s, s.handlers[id], c); h'.Some? ==> HandlerHomed(s, h'.value)
  {
    WritesItsOwn(cfg, s, id, c);
    hide HandlerAfter, Active, Cleaning, Owned, Homed, CanAct;
    forall x { TakesUpItsOwn(cfg, s, id, c, x); }
  }

  lemma ActChanges(cfg: Config, s: State, id: nat, c: Choice)
    requires CanAct(s, id, c)
    ensures var next := ActStep(cfg, s, id, c);
            && next.homes == s.homes && next.rows == RowsAfter(s, s.handlers[id], c)
            && forall j :: j in next.handlers ==>
                 if j == id then HandlerAfter(cfg, s, s.handlers[id], c) == Some(next.handlers[j])
                 else j in s.handlers && next.handlers[j] == s.handlers[j]
  {
    hide RowsAfter, SessionsAfter, DrivesAfter, HandlerAfter, Said, CanAct;
  }

  lemma ActKeepsHomed(cfg: Config, s: State, id: nat, c: Choice)
    requires Owned(s) && Homed(s) && CanAct(s, id, c)
    ensures Homed(ActStep(cfg, s, id, c))
  {
    var s' := ActStep(cfg, s, id, c);
    assert id in s.handlers;
    ActChanges(cfg, s, id, c);
    ActorStaysHomed(cfg, s, id, c);
    hide ActStep, RowsAfter, HandlerAfter, CanAct, Owned, Active, Cleaning;
    forall x | x in s'.rows ensures x in s'.homes && s'.rows[x].workflow == s'.homes[x] {
      RowsStayHomed(cfg, s, id, c, x);
    }
    forall j | j in s'.handlers ensures HandlerHomed(s', s'.handlers[j]) {
      if j != id { assert HandlerHomed(s, s.handlers[j]); }
    }
  }

  lemma ActKeepsRecords(cfg: Config, s: State, id: nat, c: Choice)
    requires Owned(s) && Traceable(s) && CanAct(s, id, c)
    ensures SessionsHaveRecords(ActStep(cfg, s, id, c))
  {
    var s' := ActStep(cfg, s, id, c);
    var h := s.handlers[id];
    assert HandlerOk(h) && HandlerSafe(s, h) && HandlerHomed(s, h);
    assert h.stage.DeleteRecord? ==> Cleaning(h, h.stage.sid);
    forall p | p in s'.sessions ensures p.1 in s'.rows && s'.rows[p.1].workflow == p.0 {
      if h.stage.StartDrive? && p.1 == h.stage.sid {
        assert Active(h, p.1);
      } else {
        assert p in s.sessions;
      }
      if p.1 in s'.rows {
        RowOrigin(s, id, c, p.1);
        assert Active(h, p.1) ==> s.homes[p.1] == h.workflow;
      }
    }
  }

  /** A handler that did not act still has what it relies on. */
  lemma OtherStaysSafe(cfg: Config, s: State, id: nat, c: Choice, j: nat)
    requires Owned(s) && Traceable(s) && CanAct(s, id, c) && j != id && j in s.handlers
    ensures HandlerSafe(ActStep(cfg, s, id, c), s.handlers[j])
  {
    hide HandlerAfter, Finish, Homed, SessionsHaveRecords, Parked;
    var s' := ActStep(cfg, s, id, c);
    var h, g := s.handlers[id], s.handlers[j];
    assert HandlerOk(h) && HandlerSafe(s, h) && HandlerSafe(s, g);
    assert h.stage.DeleteRecord? ==> Cleaning(h, h.stage.sid);
    forall x | Active(g, x) ensures x in s'.rows <==> !g.stage.PutParams? {
      if x in s'.rows { RowOrigin(s, id, c, x); }
      if Active(h, x) { OneDriver(s, id, j, x); }
    }
    forall x | Cleaning(g, x) ensures Idle(s', x) {
      StaysIdle(cfg, s, id, c, x);
    }
    assert g.stage.DeleteRecord? ==> Cleaning(g, g.stage.sid);
    assert h.stage.StartDrive? ==> Active(h, h.stage.sid);
  }

  lemma ActorHasRecord(cfg: Config, s: State, id: nat, c: Choice, x: Sid)
    requires Owned(s) && Traceable(s) && CanAct(s, id, c)
    ensures var h := s.handlers[id];
            var h' := HandlerAfter(cfg, s, h, c);
            h'.Some? && Active(h'.value, x) ==> x in RowsAfter(s, h, c) && !h'.value.stage.PutParams?
  {
    var h := s.handlers[id];
    assert HandlerSafe(s, h) && HandlerOk(h);
    TakesUp(cfg, s, id, c, x);
    if Active(h, x) {
      assert h.stage.sid == x;
    }
  }

  lemma ActorDeletesLast(cfg: Config, s: State, id: nat, c: Choice)
    requires CanAct(s, id, c)
    ensures var h := s.handlers[id];
            var h' := HandlerAfter(cfg, s, h, c);
            h'.Some? && h'.value.stage.DeleteRecord? ==>
              h'.value.workflow == h.workflow && (h.workflow, h'.value.stage.sid) !in SessionsAfter(s, h, c)
  {
  }

  lemma ActorStaysSafe(cfg: Config, s: State, id: nat, c: Choice)
    requires Owned(s) && Traceable(s) && CanAct(s, id, c) && ReapsOnlyIdle(s, Act(id, c))
    requires id in ActStep(cfg, s, id, c).handlers
    ensures HandlerSafe(ActStep(cfg, s, id, c), ActStep(cfg, s, id, c).handlers[id])
  {
    var s' := ActStep(cfg, s, id, c);
    var h' := s'.handlers[id];
    ActorDeletesLast(cfg, s, id, c);
    forall x | Active(h', x) ensures x in s'.rows && !h'.stage.PutParams? {
      ActorHasRecord(cfg, s, id, c, x);
    }
    forall x | Cleaning(h', x) ensures Idle(s', x) {
      ActorCleansIdle(cfg, s, id, c, x);
    }
  }

  lemma ActKeepsTraceable(cfg: Config, s: State, id: nat, c: Choice)
    requires Owned(s) && Traceable(s) && CanAct(s, id, c) && ReapsOnlyIdle(s, Act(id, c))
    ensures Traceable(ActStep(cfg, s, id, c))
  {
    var s' := ActStep(cfg, s, id, c);
    ActKeepsHomed(cfg, s, id, c);
    ActKeepsRecords(cfg, s, id, c);
    forall j | j in s'.handlers ensures HandlerSafe(s', s'.handlers[j]) {
      if j == id { ActorStaysSafe(cfg, s, id, c); } else { OtherStaysSafe(cfg, s, id, c, j); }
    }
  }

  lemma ArrivalKeepsIdle(cfg: Config, s: State, e: Event, x: Sid)
    requires Enabled(s, e) && !e.Act? && Idle(s, x) && x in s.homes
    ensures Idle(Next(cfg, s, e), x)
  {
  }

  lemma ArrivalKeeps(cfg: Config, s: State, e: Event, j: nat)
    requires Enabled(s, e) && !e.Act? && j in s.handlers && j in Next(cfg, s, e).handlers
    ensures var s' := Next(cfg, s, e);
            && s'.handlers[j] == s.handlers[j] && s'.rows == s.rows && s'.sessions == s.sessions
            && forall x :: x in s.homes ==> x in s'.homes && s'.homes[x] == s.homes[x]
  {
  }

  lemma ArrivalStaysSafe(cfg: Config, s: State, e: Event, j: nat)
    requires Traceable(s) && Enabled(s, e) && !e.Act? && j in s.handlers && j in Next(cfg, s, e).handlers
    ensures var s' := Next(cfg, s, e);
            s'.handlers[j] == s.handlers[j] && HandlerSafe(s', s.handlers[j]) && HandlerHomed(s', s.handlers[j])
  {
    var g := s.handlers[j];
    assert HandlerSafe(s, g) && HandlerHomed(s, g);
    ArrivalKeeps(cfg, s, e, j);
    hide Next, Enabled, Idle, Active, Cleaning, Traceable;
    forall x | Cleaning(g, x) ensures Idle(Next(cfg, s, e), x) {
      ArrivalKeepsIdle(cfg, s, e, x);
    }
  }

  lemma ArrivalStartsSafe(cfg: Config, s: State, e: Event, j: nat)
    requires Traceable(s) && Enabled(s, e) && !e.Act? && j !in s.handlers && j in Next(cfg, s, e).handlers
    ensures var s' := Next(cfg, s, e);
            HandlerSafe(s', s'.handlers[j]) && HandlerHomed(s', s'.handlers[j])
  {
    var h := Next(cfg, s, e).handlers[j];
    assert h.queue == [] && (h.stage.PutParams? || h.stage.Claim? || h.stage.SweepClaim? || h.stage.OrphanScan?);
  }

  lemma StepKeepsTraceable(cfg: Config, s: State, e: Event)
    requires Owned(s) && Traceable(s) && Enabled(s, e) && ReapsOnlyIdle(s, e)
    ensures Traceable(Next(cfg, s, e))
  {
    if e.Act? {
      ActKeepsTraceable(cfg, s, e.id, e.choice);
    } else {
      var s' := Next(cfg, s, e);
      ArrivalTokens(cfg, s, e, 0, "");
      assert s'.sessions == s.sessions;
      forall j | j in s'.handlers ensures HandlerSafe(s', s'.handlers[j]) && HandlerHomed(s', s'.handlers[j]) {
        if j in s.handlers { ArrivalStaysSafe(cfg, s, e, j); } else { ArrivalStartsSafe(cfg, s, e, j); }
      }
    }
  }

  // ---- No session is lost ----

  lemma {:induction false} TraceableThroughout(cfg: Config, states: seq<State>, events: seq<Event>, n: nat)
    requires IsRun(cfg, states, events) && n < |states|
    requires forall i :: 0 <= i < n ==> ReapsOnlyIdle(states[i], events[i])
    ensures Traceable(states[n])
  {
    if n > 0 {
      TraceableThroughout(cfg, states, events, n - 1);
      OwnedThroughout(cfg, states, events, n - 1);
      hide Traceable, Owned, Init, ReapsOnlyIdle;
      assert Enabled(states[n-1], events[n-1]) && states[n-1+1] == Next(cfg, states[n-1], events[n-1]);
      StepKeepsTraceable(cfg, states[n-1], events[n-1]);
    }
  }

  /** Main result: at every point of every run, crashes and failed deletes included, each ADK session
      still has its park record, under the engine whose app the session belongs to, as long as no orphan
      sweep has listed a run that was still being driven. */
  lemma NoSessionIsLost(cfg: Config, states: seq<State>, events: seq<Event>, n: nat, workflow: Workflow, x: Sid)
    requires IsRun(cfg, states, events) && n < |states|
    requires forall i :: 0 <= i < n ==> ReapsOnlyIdle(states[i], events[i])
    requires (workflow, x) in states[n].sessions
    ensures x in states[n].rows && states[n].rows[x].workflow == workflow
  {
    TraceableThroughout(cfg, states, events, n);
    assert (workflow, x).1 in states[n].rows;
  }

  // ---- When a sweep lists a run ----

  /** The orphan sweep's cutoff, taken when it starts, lies OrphanTTL or more behind the clock. */
  ghost predicate CutoffsPast(cfg: Config, s: State) {
    forall id :: id in s.handlers && s.handlers[id].stage.OrphanScan? ==>
        s.handlers[id].stage.cutoff <= s.now - cfg.orphanTTL
  }

  lemma StepKeepsCutoffs(cfg: Config, s: State, e: Event)
    requires Enabled(s, e) && CutoffsPast(cfg, s)
    ensures CutoffsPast(cfg, Next(cfg, s, e))
  {
  }

  lemma {:induction false} CutoffsPastThroughout(cfg: Config, states: seq<State>, events: seq<Event>, n: nat)
    requires IsRun(cfg, states, events) && n < |states|
    ensures CutoffsPast(cfg, states[n])
  {
    if n > 0 {
      CutoffsPastThroughout(cfg, states, events, n - 1);
      hide CutoffsPast, Init;
      assert Enabled(states[n-1], events[n-1]) && states[n-1+1] == Next(cfg, states[n-1], events[n-1]);
      StepKeepsCutoffs(cfg, states[n-1], events[n-1]);
    }
  }

  /** A session that any orphan sweep lists has not been written to for more than OrphanTTL, although the
      sweep takes its cutoff first and scans later; so with the TTL above the dispatch deadline, a drive
      within the deadline of its own last record write is never listed. */
  lemma ListedIsOverdue(cfg: Config, deadline: Time, states: seq<State>, events: seq<Event>, n: nat, x: Sid)
    requires IsRun(cfg, states, events) && n < |events| && cfg.orphanTTL > deadline
    requires events[n].Act? && events[n].choice.Lists? && x in events[n].choice.sids
    ensures x in states[n].rows && states[n].rows[x].prKey == ""
    ensures states[n].now > states[n].rows[x].updatedAt + cfg.orphanTTL > states[n].rows[x].updatedAt + deadline
  {
    CutoffsPastThroughout(cfg, states, events, n);
    assert CanAct(states[n], events[n].id, events[n].choice);
  }

  /** Every run that a handler is driving was written within the deadline. */
  ghost predicate Prompt(deadline: Time, s: State) {
    forall id, x :: id in s.handlers && Active(s.handlers[id], x) && x in s.rows ==>
        s.now <= s.rows[x].updatedAt + deadline
  }

  /** So drives that end within the deadline keep every session's record, if the configuration holds. */
  lemma PromptRunsLoseNoSession(cfg: Config, deadline: Time, states: seq<State>, events: seq<Event>, n: nat,
      workflow: Workflow, x: Sid)
    requires IsRun(cfg, states, events) && n < |states| && cfg.orphanTTL > deadline
    requires forall i :: 0 <= i < n && events[i].Act? && events[i].choice.Lists? ==> Prompt(deadline, states[i])
    requires (workflow, x) in states[n].sessions
    ensures x in states[n].rows && states[n].rows[x].workflow == workflow
  {
    forall i | 0 <= i < n ensures ReapsOnlyIdle(states[i], events[i]) {
      if events[i].Act? && events[i].choice.Lists? {
        forall y, j | y in events[i].choice.sids && j in states[i].handlers ensures !Active(states[i].handlers[j], y) {
          ListedIsOverdue(cfg, deadline, states, events, i, y);
        }
      }
    }
    NoSessionIsLost(cfg, states, events, n, workflow, x);
  }

  // ---- How a session is lost ----

  /** The two steps that can leave a session without its record: a drive that starts with none, and a
      record's deletion with the session there. */
  predicate Loses(s: State, e: Event) {
    && e.Act? && e.id in s.handlers && !e.choice.Fails?
    && var h := s.handlers[e.id];
       || (h.stage.StartDrive? && h.stage.sid !in s.rows)
       || (h.stage.DeleteRecord? && (h.workflow, h.stage.sid) in s.sessions)
  }

  lemma {:induction false} HomedThroughout(cfg: Config, states: seq<State>, events: seq<Event>, n: nat)
    requires IsRun(cfg, states, events) && n < |states|
    ensures Homed(states[n]) && Owned(states[n])
  {
    OwnedThroughout(cfg, states, events, n);
    if n > 0 {
      HomedThroughout(cfg, states, events, n - 1);
      hide Homed, Owned, Init;
      assert Enabled(states[n-1], events[n-1]) && states[n-1+1] == Next(cfg, states[n-1], events[n-1]);
      StepKeepsHomed(cfg, states[n-1], events[n-1]);
    }
  }

  lemma StepKeepsHomed(cfg: Config, s: State, e: Event)
    requires Owned(s) && Homed(s) && Enabled(s, e)
    ensures Homed(Next(cfg, s, e))
  {
    if e.Act? {
      ActKeepsHomed(cfg, s, e.id, e.choice);
    } else {
      ArrivalTokens(cfg, s, e, 0, "");
      forall j | j in Next(cfg, s, e).handlers ensures HandlerHomed(Next(cfg, s, e), Next(cfg, s, e).handlers[j]) {
        if j in s.handlers { ArrivalStaysHomed(cfg, s, e, j); } else { ArrivalStartsHomed(cfg, s, e, j); }
      }
    }
  }

  lemma ArrivalStaysHomed(cfg: Config, s: State, e: Event, j: nat)
    requires Homed(s) && Enabled(s, e) && !e.Act? && j in s.handlers && j in Next(cfg, s, e).handlers
    ensures HandlerHomed(Next(cfg, s, e), Next(cfg, s, e).handlers[j])
  {
    assert HandlerHomed(s, s.handlers[j]);
    ArrivalKeeps(cfg, s, e, j);
    hide Next, Enabled, Active, Cleaning, Homed;
  }

  lemma ArrivalStartsHomed(cfg: Config, s: State, e: Event, j: nat)
    requires Enabled(s, e) && !e.Act? && j !in s.handlers && j in Next(cfg, s, e).handlers
    ensures HandlerHomed(Next(cfg, s, e), Next(cfg, s, e).handlers[j])
  {
    var h := Next(cfg, s, e).handlers[j];
    assert h.queue == [] && (h.stage.PutParams? || h.stage.Claim? || h.stage.SweepClaim? || h.stage.OrphanScan?);
  }

  /** The sessions and rows after a step, where they change together. */
  lemma RecordsGone(s: State, id: nat, c: Choice, x: Sid)
    requires CanAct(s, id, c) && x in s.rows && x !in RowsAfter(s, s.handlers[id], c)
    ensures s.handlers[id].stage.DeleteRecord? && s.handlers[id].stage.sid == x && !c.Fails?
  {
  }

  lemma WorkflowsStay(cfg: Config, s: State, id: nat, c: Choice, x: Sid)
    requires Owned(s) && Homed(s) && CanAct(s, id, c) && x in RowsAfter(s, s.handlers[id], c)
    ensures x in s.rows ==> RowsAfter(s, s.handlers[id], c)[x].workflow == s.rows[x].workflow
  {
    RowsStayHomed(cfg, s, id, c, x);
    hide RowsAfter, Owned;
  }

  lemma LosingStepLoses(cfg: Config, s: State, e: Event)
    requires Owned(s) && Homed(s) && SessionsHaveRecords(s) && Enabled(s, e) && Loses(s, e)
    ensures !SessionsHaveRecords(Next(cfg, s, e))
  {
    var h := s.handlers[e.id];
    var p := (h.workflow, h.stage.sid);
    hide HandlerAfter, Owned, Homed, DrivesAfter, Said;
    assert p in Next(cfg, s, e).sessions && p.1 !in Next(cfg, s, e).rows;
  }

  lemma OtherStepsKeep(cfg: Config, s: State, e: Event)
    requires Owned(s) && Homed(s) && SessionsHaveRecords(s) && Enabled(s, e) && !Loses(s, e)
    ensures SessionsHaveRecords(Next(cfg, s, e))
  {
    if e.Act? {
      var h := s.handlers[e.id];
      var next := Next(cfg, s, e);
      assert next.rows == RowsAfter(s, h, e.choice) && next.sessions == SessionsAfter(s, h, e.choice);
      assert h.stage.StartDrive? ==> HandlerHomed(s, h) && Active(h, h.stage.sid);
      hide Next, Owned, HandlerHomed, Active, RowsAfter;
      forall p | p in next.sessions ensures p.1 in next.rows && next.rows[p.1].workflow == p.0 {
        KeptRecord(cfg, s, e.id, e.choice, p);
      }
    } else {
      ArrivalTokens(cfg, s, e, 0, "");
    }
  }

  lemma KeptRecord(cfg: Config, s: State, id: nat, c: Choice, p: (Workflow, Sid))
    requires Owned(s) && Homed(s) && SessionsHaveRecords(s) && CanAct(s, id, c) && !Loses(s, Act(id, c))
    requires p in SessionsAfter(s, s.handlers[id], c)
    ensures var rows := RowsAfter(s, s.handlers[id], c); p.1 in rows && rows[p.1].workflow == p.0
  {
    var h := s.handlers[id];
    assert HandlerHomed(s, h);
    assert h.stage.StartDrive? ==> Active(h, h.stage.sid);
    assert p.1 in s.rows && s.rows[p.1].workflow == p.0;
    if p.1 !in RowsAfter(s, h, c) {
      RecordsGone(s, id, c, p.1);
    }
    hide RowsAfter, Owned;
    if p.1 in RowsAfter(s, h, c) {
      WorkflowsStay(cfg, s, id, c, p.1);
    }
  }

  /** Main result, step by step: of all steps of all handlers, sessions lose their records exactly in
      those two. */
  lemma SessionsAreLostExactly(cfg: Config, states: seq<State>, events: seq<Event>, n: nat)
    requires IsRun(cfg, states, events) && n < |events| && SessionsHaveRecords(states[n])
    ensures SessionsHaveRecords(states[n+1]) <==> !Loses(states[n], events[n])
  {
    HomedThroughout(cfg, states, events, n);
    assert Enabled(states[n], events[n]) && states[n+1] == Next(cfg, states[n], events[n]);
    hide Owned, Homed, SessionsHaveRecords, Loses, Init;
    if Loses(states[n], events[n]) {
      LosingStepLoses(cfg, states[n], events[n]);
    } else {
      OtherStepsKeep(cfg, states[n], events[n]);
    }
  }

  function Last(states: seq<State>): State
    requires states != []
  {
    states[|states|-1]
  }

  lemma Extend(cfg: Config, states: seq<State>, events: seq<Event>, e: Event)
      returns (states': seq<State>, events': seq<Event>)
    requires IsRun(cfg, states, events) && Enabled(Last(states), e)
    ensures states' != [] && IsRun(cfg, states', events') && Last(states') == Next(cfg, Last(states), e)
    ensures states <= states' && events <= events'
  {
    states', events' := states + [Next(cfg, Last(states), e)], events + [e];
  }

  /** The handler is about to drive the session, with a record it relies on. */
  predicate BeforeDrive(stage: Stage, x: Sid) {
    (stage.StartDrive? || stage.RetryGet? || stage.RetryPut?) && stage.sid == x
  }

  /** A sweep's handler is to delete the session now, or later. */
  predicate WillReap(h: Handler, x: Sid) {
    && h.reaping && (h.stage.DeleteSession? || h.stage.DeleteRecord?) && h.stage.after == None
    && (h.stage == DeleteSession(x, None) || x in h.queue)
  }

  /** A sweep whose deletions fail passes on to a session in its queue. */
  lemma {:induction false} PassOnTo(cfg: Config, states: seq<State>, events: seq<Event>, i: nat, x: Sid)
      returns (states': seq<State>, events': seq<Event>, h': Handler)
    requires IsRun(cfg, states, events) && i in Last(states).handlers && WillReap(Last(states).handlers[i], x)
    ensures states' != [] && IsRun(cfg, states', events') && states <= states' && events <= events'
    ensures h'.reaping && h'.stage == DeleteSession(x, None)
    ensures Last(states') == Last(states).(handlers := Last(states).handlers[i := h'])
    decreases |Last(states).handlers[i].queue|
  {
    var s := Last(states);
    var h := s.handlers[i];
    if h.stage == DeleteSession(x, None) {
      states', events', h' := states, events, h;
      assert s.handlers == s.handlers[i := h];
    } else {
      PassOn(cfg, s, i, h);
      hide IsRun, Next, Enabled;
      states', events' := Extend(cfg, states, events, Act(i, Fails));
      var mid := Last(states');
      assert mid.handlers[i].stage == DeleteSession(x, None) || x in mid.handlers[i].queue;
      states', events', h' := PassOnTo(cfg, states', events', i, x);
      assert mid.handlers[i := h'] == s.handlers[i := h'];
    }
  }

  lemma PassOn(cfg: Config, s: State, i: nat, h: Handler)
    requires i in s.handlers && s.handlers[i] == h && h.reaping && h.queue != []
    requires (h.stage.DeleteSession? || h.stage.DeleteRecord?) && h.stage.after == None
    ensures Enabled(s, Act(i, Fails))
    ensures Next(cfg, s, Act(i, Fails))
         == s.(handlers := s.handlers[i := h.(stage := DeleteSession(h.queue[0], None), queue := h.queue[1..])])
  {
    assert s.notices + [] == s.notices;
  }

  /** The sweep's two deletions, and the driver's steps, on their own. */
  lemma ReapSession(cfg: Config, s: State, i: nat, x: Sid)
    requires i in s.handlers && s.handlers[i].stage == DeleteSession(x, None)
    ensures Enabled(s, Act(i, Works))
    ensures var next := Next(cfg, s, Act(i, Works));
            && next.rows == s.rows && next.handlers == s.handlers[i := s.handlers[i].(stage := DeleteRecord(x, None))]
  {
    hide PutRow;
  }

  lemma ReapRecord(cfg: Config, s: State, i: nat, x: Sid)
    requires i in s.handlers && s.handlers[i].stage == DeleteRecord(x, None)
    ensures Enabled(s, Act(i, Works))
    ensures var next := Next(cfg, s, Act(i, Works));
            && next.rows == s.rows - {x} && next.sessions == s.sessions
            && forall j :: j != i && j in s.handlers ==> j in next.handlers && next.handlers[j] == s.handlers[j]
  {
    hide PutRow, Finish;
  }

  lemma DriveStarts(cfg: Config, s: State, j: nat, x: Sid)
    requires j in s.handlers && s.handlers[j].stage.StartDrive? && s.handlers[j].stage.sid == x
    ensures Enabled(s, Act(j, Works))
    ensures var next := Next(cfg, s, Act(j, Works));
            && next.rows == s.rows && (s.handlers[j].workflow, x) in next.sessions
            && forall i :: i != j && i in s.handlers ==> i in next.handlers && next.handlers[i] == s.handlers[i]
  {
    hide PutRow;
  }

  /** The driver goes on to its drive, writing the record again or not finding it. */
  lemma RetryGoesOn(cfg: Config, s: State, j: nat, x: Sid)
    requires j in s.handlers
    requires var t := s.handlers[j].stage; (t.RetryPut? && t.sid == x) || (t.RetryGet? && t.sid == x && x !in s.rows)
    ensures Enabled(s, Act(j, Works))
    ensures var next := Next(cfg, s, Act(j, Works));
            && j in next.handlers && next.handlers[j].workflow == s.handlers[j].workflow
            && next.handlers[j].stage.StartDrive? && next.handlers[j].stage.sid == x
            && (s.handlers[j].stage.RetryGet? ==> next.rows == s.rows)
            && forall i :: i != j && i in s.handlers ==> i in next.handlers && next.handlers[i] == s.handlers[i]
  {
    hide PutRow;
  }

  /** With the record to be written again: the write and the drive come between the two deletions. */
  lemma LostBetween(cfg: Config, states: seq<State>, events: seq<Event>, i: nat, j: nat, x: Sid)
      returns (states': seq<State>, events': seq<Event>)
    requires states != [] && IsRun(cfg, states, events) && i in Last(states).handlers && j in Last(states).handlers
    requires Last(states).handlers[i].stage == DeleteSession(x, None)
    requires Last(states).handlers[j].stage.RetryPut? && Last(states).handlers[j].stage.sid == x
    ensures states' != [] && IsRun(cfg, states', events') && states <= states' && events <= events'
    ensures (Last(states).handlers[j].workflow, x) in Last(states').sessions && x !in Last(states').rows
  {
    hide IsRun, Next, Enabled;
    ReapSession(cfg, Last(states), i, x);
    states', events' := Extend(cfg, states, events, Act(i, Works));
    RetryGoesOn(cfg, Last(states'), j, x);
    states', events' := Extend(cfg, states', events', Act(j, Works));
    DriveStarts(cfg, Last(states'), j, x);
    states', events' := Extend(cfg, states', events', Act(j, Works));
    ReapRecord(cfg, Last(states'), i, x);
    states', events' := Extend(cfg, states', events', Act(i, Works));
  }

  /** With the record to be read, or the drive to start: both deletions come first. */
  lemma LostBefore(cfg: Config, states: seq<State>, events: seq<Event>, i: nat, j: nat, x: Sid)
      returns (states': seq<State>, events': seq<Event>)
    requires states != [] && IsRun(cfg, states, events) && i in Last(states).handlers && j in Last(states).handlers
    requires Last(states).handlers[i].stage == DeleteSession(x, None)
    requires var t := Last(states).handlers[j].stage; (t.StartDrive? || t.RetryGet?) && t.sid == x
    ensures states' != [] && IsRun(cfg, states', events') && states <= states' && events <= events'
    ensures (Last(states).handlers[j].workflow, x) in Last(states').sessions && x !in Last(states').rows
  {
    hide IsRun, Next, Enabled;
    ReapSession(cfg, Last(states), i, x);
    states', events' := Extend(cfg, states, events, Act(i, Works));
    ReapRecord(cfg, Last(states'), i, x);
    states', events' := Extend(cfg, states', events', Act(i, Works));
    if Last(states').handlers[j].stage.RetryGet? {
      RetryGoesOn(cfg, Last(states'), j, x);
      states', events' := Extend(cfg, states', events', Act(j, Works));
    }
    DriveStarts(cfg, Last(states'), j, x);
    states', events' := Extend(cfg, states', events', Act(j, Works));
  }

  /** Main result: wherever an orphan sweep has listed a session and a handler is still to drive it, the run
      can go on so that the session ends with no record. So the condition of NoSessionIsLost is needed. */
  lemma AReapedRunCanBeLost(cfg: Config, states: seq<State>, events: seq<Event>, i: nat, j: nat, x: Sid)
      returns (states': seq<State>, events': seq<Event>)
    requires states != [] && IsRun(cfg, states, events) && i in Last(states).handlers && j in Last(states).handlers
    requires WillReap(Last(states).handlers[i], x) && BeforeDrive(Last(states).handlers[j].stage, x)
    ensures states' != [] && IsRun(cfg, states', events') && states <= states' && events <= events'
    ensures (Last(states).handlers[j].workflow, x) in Last(states').sessions && x !in Last(states').rows
  {
    hide IsRun;
    var h';
    states', events', h' := PassOnTo(cfg, states, events, i, x);
    if Last(states).handlers[j].stage.RetryPut? {
      states', events' := LostBetween(cfg, states', events', i, j, x);
    } else {
      states', events' := LostBefore(cfg, states', events', i, j, x);
    }
  }

  /** A kick-off at time 1 that parks under o/r#7. */
  lemma DriveOneRun(cfg: Config) returns (states: seq<State>, events: seq<Event>)
    ensures IsRun(cfg, states, events)
    ensures Last(states) == State(map["x" := ParkRecord("x", "lint", "", "", 0, "p", 1)], {("lint", "x")},
                                  map[1 := Handler("lint", Driving("x", "o/r", 1), false, [])], [], map["x" := 1],
                                      map["x" := "lint"], 1)
  {
    states, events := [State(map[], {}, map[], [], map[], map[], 1)], [];
    states, events := Extend(cfg, states, events, KickoffArrives(1, "lint", "o/r", "p", "x"));
    assert Last(states).handlers == map[1 := Handler("lint", PutParams("x", "o/r", "p"), false, [])];
    states, events := Extend(cfg, states, events, Act(1, Works));
    assert Last(states).rows == map["x" := ParkRecord("x", "lint", "", "", 0, "p", 1)];
    states, events := Extend(cfg, states, events, Act(1, Works));
  }

  lemma ParkOneRun(cfg: Config) returns (states: seq<State>, events: seq<Event>)
    ensures IsRun(cfg, states, events)
    ensures Last(states) == State(map["x" := ParkRecord("x", "lint", PRKey("o/r", 7), "c", 1, "p", 1)], {("lint", "x")},
                                  map[], [], map["x" := 1], map["x" := "lint"], 1)
  {
    states, events := DriveOneRun(cfg);
    states, events := Extend(cfg, states, events, Act(1, Drives(DriveEnded(false, false, "c", 7))));
    states, events := Extend(cfg, states, events, Act(1, Works));
    var r := ParkRecord("x", "lint", PRKey("o/r", 7), "c", 1, "p", 1);
    assert Last(states).handlers[1] == Handler("lint", ParkPut("x", "o/r", r), false, []);
    states, events := Extend(cfg, states, events, Act(1, Works));
    assert Last(states).rows == map["x" := r];
  }

  lemma ClaimLate() returns (states: seq<State>, events: seq<Event>)
    ensures IsRun(Config(3, 5, 10), states, events)
    ensures Last(states) == State(map["x" := ParkRecord("x", "lint", "", "c", 1, "p", 1)], {("lint", "x")},
                                  map[2 := Handler("lint", RetryGet("x", "o/r", 1), false, [])], [], map["x" := 1],
                                      map["x" := "lint"], 20)
  {
    var cfg := Config(3, 5, 10);
    states, events := ParkOneRun(cfg);
    states, events := Extend(cfg, states, events, Tick(20));
    states, events := Extend(cfg, states, events, CheckRunArrives(2, "lint", "o/r", 7, false));
    states, events := Extend(cfg, states, events, Act(2, Wins("x")));
  }

  lemma ScanIt() returns (states: seq<State>, events: seq<Event>)
    ensures states != [] && IsRun(Config(3, 5, 10), states, events)
    ensures Last(states) == State(map["x" := ParkRecord("x", "lint", "", "c", 1, "p", 1)], {("lint", "x")},
                                  map[2 := Handler("lint", RetryGet("x", "o/r", 1), false, []),
                                      3 := Handler("lint", OrphanScan(10), true, [])],
                                  [], map["x" := 1], map["x" := "lint"], 20)
  {
    var cfg := Config(3, 5, 10);
    states, events := ClaimLate();
    states, events := Extend(cfg, states, events, OrphanSweepStarts(3, "lint"));
    assert Last(states).handlers[3] == Handler("lint", OrphanScan(10), true, []);
  }

  /** Such a state is reached when a check run claims, late, a session that was parked for longer than
      OrphanTTL: until the retry is written it looks like an orphan, and a sweep in that gap lists it. */
  lemma ALateCheckRunCanLoseASession() returns (states: seq<State>, events: seq<Event>)
    ensures states != [] && IsRun(Config(3, 5, 10), states, events)
    ensures ("lint", "x") in Last(states).sessions && "x" !in Last(states).rows
  {
    var cfg := Config(3, 5, 10);
    states, events := ScanIt();
    states, events := Extend(cfg, states, events, Act(3, Lists(["x"])));
    assert Last(states).handlers[2] == Handler("lint", RetryGet("x", "o/r", 1), false, []);
    assert Last(states).handlers[3] == Handler("lint", DeleteSession("x", None), true, ["x"][1..]);
    states, events := AReapedRunCanBeLost(cfg, states, events, 3, 2, "x");
  }
}
