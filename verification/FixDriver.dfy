/** The driver's handlers as they are written: one after the other they read, write and delete records,
    delete sessions and notify. Before each of their calls any other handlers may take any steps, and
    each call comes out as the surroundings have it. Whatever these do, a handler's calls are the steps
    of the protocol, so that what holds of every run of the protocol holds of the driver. */
module FixDrivers {
  import opened Wrappers
  import opened ParkColumns
  import opened FixRuns
  import opened FixRunOwnership
  import opened FixRunCauses
  import opened FixDeeds

  function Where(s: State, id: nat): Option<Handler> { if id in s.handlers then Some(s.handlers[id]) else None }

  /** Not a step of this handler, and none that takes its number. */
  predicate Foreign(e: Event, id: nat) { e.Tick? || e.id != id }

  /** How a call comes out when nothing else is said. */
  function Default(stage: Stage): Choice {
    match stage
    case Driving(_, _, _) => Drives(DriveFailed)
    case SweepClaim(_) => FindsNothing
    case _ => Fails
  }

  lemma DefaultIsEnabled(s: State, id: nat)
    requires id in s.handlers
    ensures CanAct(s, id, Default(s.handlers[id].stage))
  {
  }

  lemma ForeignLeavesAlone(cfg: Config, s: State, e: Event, id: nat)
    requires Enabled(s, e) && Foreign(e, id)
    ensures Where(Next(cfg, s, e), id) == Where(s, id)
    ensures forall x :: x in s.homes ==> x in Next(cfg, s, e).homes
  {
    hide RowsAfter, SessionsAfter, DrivesAfter, HandlerAfter, Said, CanAct;
  }

  lemma ActMoves(cfg: Config, s: State, id: nat, c: Choice)
    requires CanAct(s, id, c)
    ensures Where(ActStep(cfg, s, id, c), id) == HandlerAfter(cfg, s, s.handlers[id], c)
  {
    hide RowsAfter, SessionsAfter, DrivesAfter, HandlerAfter, Said, CanAct;
  }

  lemma OneMoreStep(cfg: Config, states: seq<State>, events: seq<Event>, s: State, e: Event)
    requires IsRun(cfg, states, events) && states[|events|] == s && Enabled(s, e)
    ensures IsRun(cfg, states + [Next(cfg, s, e)], events + [e])
  {
    hide Next, Enabled, Init;
  }

  /** What a record write of a handler must write. */
  function Writes(h: Handler): Option<ParkRecord> {
    match h.stage
    case PutParams(_, _, _) => Some(Fresh(h))
    case ParkPut(_, _, r) => Some(r)
    case RetryPut(_, _, _, r) => Some(r)
    case _ => None
  }

  datatype Loaded = LoadFailed | NotThere | Loaded(record: ParkRecord, params: string)

  class Driver {
    const cfg: Config
    const workflow: Workflow
    var timers: set<string>
    var world: State                // the store, the sessions, the channel, and every handler
    var others: seq<seq<Event>>     // what happens elsewhere before each of the calls to come
    var answers: seq<Choice>        // how the calls to come will come out, where they can
    ghost var states: seq<State>
    ghost var events: seq<Event>

    constructor (cfg: Config, workflow: Workflow, now: Time, others: seq<seq<Event>>, answers: seq<Choice>)
      ensures Valid() && this.cfg == cfg && this.workflow == workflow && timers == {}
    {
      this.cfg, this.workflow, this.timers := cfg, workflow, {};
      this.others, this.answers := others, answers;
      var start := State(map[], {}, map[], [], map[], map[], now);
      world, states, events := start, [start], [];
    }

    /** The world is the last state of a run of the protocol. */
    ghost predicate Valid()
      reads this`world, this`states, this`events
    {
      IsRun(cfg, states, events) && world == states[|events|]
    }

    /** What the handler has done so far. */
    ghost function Deeds(id: nat): seq<Deed>
      requires Valid()
      reads this`world, this`states, this`events
    {
      DeedsOf(states, events, id)
    }

    /** The handler is at a stage of its own engine. */
    predicate At(id: nat, stage: Stage, reaping: bool, queue: seq<Sid>)
      reads this`world
    {
      Where(world, id) == Some(Handler(workflow, stage, reaping, queue))
    }

    /** The handler is done with an item: at the next of its queue, or returned. */
    predicate Done(id: nat, reaping: bool, queue: seq<Sid>)
      reads this`world
    {
      Where(world, id) == Finish(Handler(workflow, SweepClaim(0), reaping, queue))
    }

    method Step(e: Event)
      requires Valid() && Enabled(world, e)
      modifies this`world, this`states, this`events
      ensures Valid() && world == Next(cfg, old(world), e)
      ensures states == old(states) + [world] && events == old(events) + [e] && |states| == |events| + 1
      ensures forall id :: Deeds(id) == old(Deeds(id)) + DeedOf(old(world), e, id)
    {
      OneMoreStep(cfg, states, events, world, e);
      forall id { OneMoreDeed(states, events, Next(cfg, world, e), e, id); }
      hide IsRun, Next, Enabled, DeedOf, DeedsOf;
      world := Next(cfg, world, e);
      states, events := states + [world], events + [e];
    }

    /** Where a handler starts that an event brings. */
    predicate StartsAt(e: Event, id: nat, stage: Stage, reaping: bool)
      reads this`world
    {
      match e
      case KickoffArrives(i, w, repo, params, sid) =>
        i == id && w == workflow && stage == PutParams(sid, repo, params) && !reaping
      case CheckRunArrives(i, w, repo, pr, success) =>
        i == id && w == workflow && pr != 0 && stage == Claim(PRKey(repo, pr), CheckRun(repo, success)) && !reaping
      case TimerFires(i, w, key) => i == id && w == workflow && stage == Claim(key, SoftTimer) && !reaping
      case TimeoutSweepStarts(i, w) =>
        i == id && w == workflow && stage == SweepClaim(world.now - cfg.timeout) && !reaping
      case OrphanSweepStarts(i, w) =>
        i == id && w == workflow && stage == OrphanScan(world.now - cfg.orphanTTL) && reaping
      case _ => false
    }

    method Begin(id: nat, e: Event, ghost stage: Stage, ghost reaping: bool)
      requires Valid() && Enabled(world, e) && StartsAt(e, id, stage, reaping)
      modifies this`world, this`states, this`events
      ensures Valid() && At(id, stage, reaping, []) && Deeds(id) == old(Deeds(id)) + [Arrived(e)]
    {
      hide IsRun, DeedsOf, PRKey;
      Step(e);
    }

    /** Whatever happens elsewhere. */
    method Meanwhile(id: nat)
      requires Valid()
      modifies this`world, this`states, this`events, this`others
      ensures Valid() && Where(world, id) == old(Where(world, id)) && Deeds(id) == old(Deeds(id))
    {
      hide IsRun, Next, Enabled, DeedsOf;
      if |others| == 0 {
        return;
      }
      var es := others[0];
      others := others[1..];
      for i := 0 to |es|
        invariant Valid() && Where(world, id) == old(Where(world, id)) && Deeds(id) == old(Deeds(id))
      {
        if Enabled(world, es[i]) && Foreign(es[i], id) {
          ForeignLeavesAlone(cfg, world, es[i], id);
          Step(es[i]);
        }
      }
    }

    /** A call: the handler's next step, some time later. */
    method Call(id: nat) returns (c: Choice, before: State, ghost d: Deed)
      requires Valid() && id in world.handlers
      modifies this`world, this`states, this`events, this`others, this`answers
      ensures Valid() && Deeds(id) == old(Deeds(id)) + [d]
      ensures d == Made(old(world.handlers[id].stage), c, Seen(before, old(world.handlers[id].stage), c))
      ensures Where(before, id) == old(Where(world, id)) && CanAct(before, id, c)
      ensures Where(world, id) == HandlerAfter(cfg, before, before.handlers[id], c)
      ensures Happened(states, events, id, d, |events| - 1)
      ensures |states| == |events| + 1 && states[|events|-1] == before
      ensures before.now == world.now && WellKeyed(before.rows)
      ensures |answers| < old(|answers|) || (answers == [] && c == Default(old(world.handlers[id].stage)))
    {
      hide IsRun, Next, ActStep, HandlerAfter, DeedsOf, Seen;
      Meanwhile(id);
      before := world;
      assert id in world.handlers;
      c := Default(world.handlers[id].stage);
      DefaultIsEnabled(world, id);
      if |answers| > 0 {
        if CanAct(world, id, answers[0]) {
          c := answers[0];
        }
        answers := answers[1..];
      }
      ActMoves(cfg, world, id, c);
      hide CanAct;
      assert Enabled(world, Act(id, c))
          && Next(cfg, world, Act(id, c)) == ActStep(cfg, world, id, c) by { ActIsEnabled(cfg, world, id, c); }
      d := Made(world.handlers[id].stage, c, Seen(world, world.handlers[id].stage, c));
      RowsAreKeyed();
      Step(Act(id, c));
      LastHappens(cfg, states, events, before, id, c, d);
    }

    lemma RowsAreKeyed()
      requires Valid()
      ensures WellKeyed(world.rows)
    {
      OwnedThroughout(cfg, states, events, |events|);
    }

    // ---- Store, session and channel calls: each is one deed ----

    /** putRecord: stamps and writes. */
    method PutRecord(id: nat, rec: ParkRecord) returns (ok: bool, ghost d: Deed)
      requires Valid() && id in world.handlers && Writes(world.handlers[id]) == Some(rec)
      modifies this`world, this`states, this`events, this`others, this`answers
      ensures Valid() && Deeds(id) == old(Deeds(id)) + [d]
      ensures Calls(d, old(world.handlers[id].stage)) && ok == !Failed(d)
      ensures var h := old(world.handlers[id]);
              match h.stage
              case PutParams(sid, repo, _) => Where(world, id) == if ok then Goto(h, StartDrive(sid, repo, 1))
                  else Finish(h)
              case ParkPut(sid, _, _) => Where(world, id) == if ok then Finish(h) else Goto(h, FailApply(sid))
              case RetryPut(sid, repo, n, _) => Where(world, id)
                  == Goto(h, if ok then StartDrive(sid, repo, n + 1) else FailApply(sid))
              case _ => false
      ensures ok ==> HoldsAt(world.rows, rec, world.now)
    {
      hide IsRun, DeedsOf, Happened;
      var c, before;
      c, before, d := Call(id);
      ok := !c.Fails?;
      EffectsOfDeeds(states, events, id, d, |events| - 1);
    }

    /** Get of a record to park; it need not be there. */
    method GetToPark(id: nat, sid: Sid) returns (ok: bool, found: Option<ParkRecord>, ghost d: Deed)
      requires Valid() && id in world.handlers && world.handlers[id].stage.ParkGet?
          && world.handlers[id].stage.sid == sid
      modifies this`world, this`states, this`events, this`others, this`answers
      ensures Valid() && Deeds(id) == old(Deeds(id)) + [d]
      ensures Calls(d, old(world.handlers[id].stage)) && ok == !Failed(d) && found == d.seen
      ensures var h := old(world.handlers[id]);
              Where(world, id) == Goto(h, if !ok then FailApply(sid) else ParkPut(sid, h.stage.repo,
                ToPark(found, h.workflow, sid, h.stage.key, h.stage.callID, h.stage.attempt)))
    {
      hide IsRun, DeedsOf;
      var c, before;
      c, before, d := Call(id);
      ok := !c.Fails?;
      found := if sid in before.rows then Some(before.rows[sid]) else None;
    }

    /** Get of a record to retry, and the decoding of its parameters. */
    method GetToRetry(id: nat, sid: Sid) returns (loaded: Loaded, ghost d: Deed)
      requires Valid() && id in world.handlers && world.handlers[id].stage.RetryGet?
          && world.handlers[id].stage.sid == sid
      modifies this`world, this`states, this`events, this`others, this`answers
      ensures Valid() && Deeds(id) == old(Deeds(id)) + [d]
      ensures Calls(d, old(world.handlers[id].stage))
      ensures match loaded
              case LoadFailed => Failed(d)
              case NotThere => d.choice.Works?
              case Loaded(r, params) => d.choice == Decodes(params) && d.seen == Some(r) && r.sessionID == sid
      ensures var h := old(world.handlers[id]);
              var n := h.stage.attempts;
              Where(world, id) == Goto(h, match loaded
                case LoadFailed => FailApply(sid)
                case NotThere => StartDrive(sid, h.stage.repo, n + 1)
                case Loaded(r, params) => RetryPut(sid, h.stage.repo, n, r.(params := params)))
    {
      hide IsRun, DeedsOf;
      var c, before;
      c, before, d := Call(id);
      loaded := if c.Decodes? then Loaded(before.rows[sid], c.params) else if c.Works? then NotThere else LoadFailed;
    }

    /** The claim of the run parked under a key. */
    method ResolveByPRKey(id: nat, key: string) returns (ok: bool, run: Option<ParkRecord>, ghost d: Deed)
      requires Valid() && id in world.handlers && world.handlers[id].stage.Claim? && world.handlers[id].stage.key == key
      modifies this`world, this`states, this`events, this`others, this`answers
      ensures Valid() && Deeds(id) == old(Deeds(id)) + [d]
      ensures Calls(d, old(world.handlers[id].stage)) && ok == !Failed(d) && (run.Some? <==> d.choice.Wins?)
      ensures run.Some? ==> d.seen.Some? && run.value == Unpark(d.seen.value)
      ensures var h := old(world.handlers[id]);
              Where(world, id) == if run.Some? then Goto(h, AfterClaim(cfg, run.value, h.stage.cause)) else Finish(h)
    {
      hide IsRun, DeedsOf;
      var c, before;
      c, before, d := Call(id);
      ok := !c.Fails?;
      run := if c.Wins? then Some(Unpark(before.rows[c.sid])) else None;
    }

    /** The arrival of a check run or a timer, and its claim. */
    method BeginWithClaim(id: nat, e: Event, key: string, cause: Cause)
        returns (run: Option<ParkRecord>, ghost did: seq<Deed>)
      requires Valid() && Enabled(world, e) && StartsAt(e, id, Claim(key, cause), false)
      modifies this`world, this`states, this`events, this`others, this`answers
      ensures Valid() && Deeds(id) == old(Deeds(id)) + did
      ensures |did| == 2 && did[0] == Arrived(e) && Calls(did[1], Claim(key, cause))
      ensures run.Some? <==> did[1].choice.Wins?
      ensures run.Some? ==> did[1].seen.Some? && run.value == Unpark(did[1].seen.value)
      ensures if run.Some? then At(id, AfterClaim(cfg, run.value, cause), false, []) else id !in world.handlers
    {
      hide IsRun, DeedsOf, AfterClaim;
      Begin(id, e, Claim(key, cause), false);
      hide Enabled;
      var ok;
      ghost var d;
      ok, run, d := ResolveByPRKey(id, key);
      did := [Arrived(e), d];
    }

    /** A drive: the session is created if need be, and then the workflow engine runs. */
    method Drive(id: nat, sid: Sid, repo: string, attempt: int) returns (r: DriveResult, ghost did: seq<Deed>)
      requires Valid() && At(id, StartDrive(sid, repo, attempt), false, [])
      modifies this`world, this`states, this`events, this`others, this`answers
      ensures Valid() && Deeds(id) == old(Deeds(id)) + did
      ensures did != [] && Calls(did[0], StartDrive(sid, repo, attempt))
      ensures if Failed(did[0]) then |did| == 1 && r == DriveFailed
              else |did| == 2 && Calls(did[1], Driving(sid, repo, attempt)) && did[1].choice == Drives(r)
      ensures At(id, AfterDrive(sid, repo, attempt, r), false, [])
    {
      hide IsRun, DeedsOf;
      var c, before;
      ghost var d;
      c, before, d := Call(id);
      did := [d];
      if c.Fails? {
        return DriveFailed, did;
      }
      c, before, d := Call(id);
      return c.result, did + [d];
    }

    method Notify(id: nat, sid: Sid, kind: Kind) returns (ghost d: Deed)
      requires Valid() && id in world.handlers
          && (world.handlers[id].stage == Tell(sid, kind) || world.handlers[id].stage == TellAfter(sid, kind))
      modifies this`world, this`states, this`events, this`others, this`answers
      ensures Valid() && Deeds(id) == old(Deeds(id)) + [d]
      ensures Calls(d, old(world.handlers[id].stage))
      ensures var h := old(world.handlers[id]);
              Where(world, id) == if h.stage.Tell? then Goto(h, DeleteSession(sid, None)) else Finish(h)
    {
      hide IsRun, DeedsOf;
      var c, before;
      c, before, d := Call(id);
    }

    method RemoveSession(id: nat, sid: Sid) returns (ok: bool, ghost d: Deed)
      requires Valid() && id in world.handlers && world.handlers[id].stage.DeleteSession?
          && world.handlers[id].stage.sid == sid
      modifies this`world, this`states, this`events, this`others, this`answers
      ensures Valid() && Deeds(id) == old(Deeds(id)) + [d]
      ensures Calls(d, old(world.handlers[id].stage)) && ok == !Failed(d)
      ensures var h := old(world.handlers[id]);
              Where(world, id) == if ok then Goto(h, DeleteRecord(sid, h.stage.after))
                  else AfterClear(h, sid, h.stage.after)
    {
      hide IsRun, DeedsOf;
      var c, before;
      c, before, d := Call(id);
      ok := !c.Fails?;
    }

    method RemoveRecord(id: nat, sid: Sid) returns (ghost d: Deed)
      requires Valid() && id in world.handlers && world.handlers[id].stage.DeleteRecord?
          && world.handlers[id].stage.sid == sid
      modifies this`world, this`states, this`events, this`others, this`answers
      ensures Valid() && Deeds(id) == old(Deeds(id)) + [d]
      ensures Calls(d, old(world.handlers[id].stage))
      ensures var h := old(world.handlers[id]); Where(world, id) == AfterClear(h, sid, h.stage.after)
    {
      hide IsRun, DeedsOf;
      var c, before;
      c, before, d := Call(id);
    }

    // ---- Handlers: what each did is all it did, with no crash among it ----

    /** clear: the session first, and the record only if that worked. */
    method Clear(id: nat, sid: Sid, ghost after: Option<Kind>, ghost reaping: bool, ghost queue: seq<Sid>)
        returns (ghost did: seq<Deed>)
      requires Valid() && At(id, DeleteSession(sid, after), reaping, queue)
      modifies this`world, this`states, this`events, this`others, this`answers
      ensures Valid() && Deeds(id) == old(Deeds(id)) + did && Clears(did, sid, after)
      ensures if after.Some? then At(id, TellAfter(sid, after.value), reaping, queue) else Done(id, reaping, queue)
    {
      hide IsRun, DeedsOf;
      var ok;
      ghost var d;
      ok, d := RemoveSession(id, sid);
      did := [d];
      if !ok {
        return;
      }
      d := RemoveRecord(id, sid);
      did := did + [d];
    }

    /** The end of a claimed run. */
    method Report(id: nat, sid: Sid, kind: Kind, ghost queue: seq<Sid>) returns (ghost did: seq<Deed>)
      requires Valid() && At(id, Tell(sid, kind), false, queue)
      modifies this`world, this`states, this`events, this`others, this`answers
      ensures Valid() && Deeds(id) == old(Deeds(id)) + did && Reports(did, sid, kind)
      ensures Done(id, false, queue)
    {
      hide IsRun, DeedsOf, Clears;
      ghost var d := Notify(id, sid, kind);
      ghost var cleared := Clear(id, sid, None, false, queue);
      did := [d] + cleared;
    }

    method FailTheApply(id: nat, sid: Sid) returns (ghost did: seq<Deed>)
      requires Valid() && At(id, FailApply(sid), false, [])
      modifies this`world, this`states, this`events, this`others, this`answers
      ensures Valid() && Deeds(id) == old(Deeds(id)) + did && GivesUp(did, sid, CouldNotApply)
      ensures id !in world.handlers
    {
      hide IsRun, DeedsOf, Clears;
      ghost var cleared := Clear(id, sid, Some(CouldNotApply), false, []);
      ghost var d := Notify(id, sid, CouldNotApply);
      did := cleared + [d];
    }

    method FinishClean(id: nat, sid: Sid) returns (ghost did: seq<Deed>)
      requires Valid() && At(id, ClearThen(sid, AlreadyClean), false, [])
      modifies this`world, this`states, this`events, this`others, this`answers
      ensures Valid() && Deeds(id) == old(Deeds(id)) + did && GivesUp(did, sid, AlreadyClean)
      ensures id !in world.handlers
    {
      hide IsRun, DeedsOf, Clears;
      ghost var cleared := Clear(id, sid, Some(AlreadyClean), false, []);
      ghost var d := Notify(id, sid, AlreadyClean);
      did := cleared + [d];
    }

    /** The record is read, changed and written back, and the soft timer armed. */
    method Park(id: nat, sid: Sid, key: string, callID: string, attempt: int, ghost repo: string)
        returns (ok: bool, ghost did: seq<Deed>)
      requires Valid() && At(id, ParkGet(sid, repo, key, callID, attempt), false, [])
      modifies this`world, this`states, this`events, this`others, this`answers, this`timers
      ensures Valid() && Deeds(id) == old(Deeds(id)) + did
      ensures Parks(did, workflow, sid, repo, key, callID, attempt, ok)
      ensures if ok then id !in world.handlers && timers == old(timers) + {key}
              else At(id, FailApply(sid), false, []) && timers == old(timers)
      ensures ok ==> HoldsAt(world.rows, ToPark(did[0].seen, workflow, sid, key, callID, attempt), world.now)
    {
      hide IsRun, DeedsOf;
      var found;
      ghost var d;
      ok, found, d := GetToPark(id, sid);
      did := [d];
      if !ok {
        return;
      }
      var rec := if found.Some? then found.value else Blank(sid);
      rec := rec.(workflow := workflow, prKey := key, callID := callID, attempts := attempt);
      ok, d := PutRecord(id, rec);
      did := did + [d];
      if ok {
        timers := timers + {key};
      }
    }

    method AfterTheDrive(id: nat, sid: Sid, repo: string, r: DriveResult, attempt: int) returns (ghost did: seq<Deed>)
      requires Valid() && At(id, AfterDrive(sid, repo, attempt, r), false, [])
      modifies this`world, this`states, this`events, this`others, this`answers, this`timers
      ensures Valid() && Deeds(id) == old(Deeds(id)) + did
      ensures Concludes(did, workflow, sid, repo, attempt, r)
      ensures id !in world.handlers
    {
      hide IsRun, DeedsOf, GivesUp, Parks, PRKey;
      if r.DriveFailed? || r.applyError {
        did := FailTheApply(id, sid);
      } else if r.clean {
        did := FinishClean(id, sid);
      } else if r.callID == "" || r.pr == 0 {
        did := FailTheApply(id, sid);
      } else {
        var ok;
        ok, did := Park(id, sid, PRKey(repo, r.pr), r.callID, attempt, repo);
        if !ok {
          ghost var more := FailTheApply(id, sid);
          assert (did + more)[..|did|] == did && (did + more)[|did|..] == more;
          did := did + more;
        }
      }
    }

    /** The failed check's output becomes part of the parameters of the next attempt. */
    method UpdateForRetry(id: nat, sid: Sid, ghost repo: string, ghost attempts: int)
        returns (ok: bool, ghost did: seq<Deed>)
      requires Valid() && At(id, RetryGet(sid, repo, attempts), false, [])
      modifies this`world, this`states, this`events, this`others, this`answers
      ensures Valid() && Deeds(id) == old(Deeds(id)) + did
      ensures did != [] && Calls(did[0], RetryGet(sid, repo, attempts))
      ensures if did[0].choice.Decodes? && did[0].seen.Some? then
                && |did| == 2 && ok == !Failed(did[1])
                && Calls(did[1], RetryPut(sid, repo, attempts, did[0].seen.value.(params := did[0].choice.params)))
              else |did| == 1 && ok == did[0].choice.Works?
      ensures At(id, if ok then StartDrive(sid, repo, attempts + 1) else FailApply(sid), false, [])
      ensures ok && did[0].choice.Decodes? && did[0].seen.Some? ==>
                && sid in world.rows && SameButParams(world.rows[sid], did[0].seen.value)
                && world.rows[sid].params == did[0].choice.params && world.rows[sid].updatedAt == world.now
    {
      hide IsRun, DeedsOf;
      var loaded;
      ghost var d;
      loaded, d := GetToRetry(id, sid);
      did := [d];
      match loaded
      case LoadFailed => ok := false;
      case NotThere => ok := true;
      case Loaded(rec, params) =>
        ok, d := PutRecord(id, rec.(params := params));
        did := did + [d];
    }

    /** A drive to its end. */
    method RunOnce(id: nat, sid: Sid, repo: string, attempt: int) returns (ghost did: seq<Deed>)
      requires Valid() && At(id, StartDrive(sid, repo, attempt), false, [])
      modifies this`world, this`states, this`events, this`others, this`answers, this`timers
      ensures Valid() && Deeds(id) == old(Deeds(id)) + did && Runs(did, workflow, sid, repo, attempt)
      ensures id !in world.handlers
    {
      hide IsRun, DeedsOf, GivesUp, Parks;
      var r;
      r, did := Drive(id, sid, repo, attempt);
      ghost var more := AfterTheDrive(id, sid, repo, r, attempt);
      assert (did + more)[|did|..] == more;
      did := did + more;
    }

    method Kickoff(id: nat, repo: string, params: string, sid: Sid) returns (ghost did: seq<Deed>)
      requires Valid() && id !in world.handlers && sid !in world.homes
      modifies this`world, this`states, this`events, this`others, this`answers, this`timers
      ensures Valid() && id !in world.handlers
      ensures Deeds(id) == old(Deeds(id)) + did && KicksOff(did, id, workflow, repo, params, sid)
    {
      var e := KickoffArrives(id, workflow, repo, params, sid);
      hide IsRun, DeedsOf, Runs;
      Begin(id, e, PutParams(sid, repo, params), false);
      hide Enabled;
      var ok;
      ghost var d;
      ok, d := PutRecord(id, ParkRecord(sid, workflow, "", "", 0, params, ZERO_TIME));
      did := [Arrived(e), d];
      if !ok {
        return;
      }
      ghost var more := RunOnce(id, sid, repo, 1);
      assert (did + more)[2..] == more;
      did := did + more;
    }

    /** One more attempt for a run whose check failed. */
    method Retry(id: nat, sid: Sid, repo: string, attempts: int) returns (ghost did: seq<Deed>)
      requires Valid() && At(id, RetryGet(sid, repo, attempts), false, [])
      modifies this`world, this`states, this`events, this`others, this`answers, this`timers
      ensures Valid() && Deeds(id) == old(Deeds(id)) + did && Retries(did, workflow, sid, repo, attempts)
      ensures id !in world.handlers
    {
      hide IsRun, DeedsOf, GivesUp, Runs;
      var ok;
      ok, did := UpdateForRetry(id, sid, repo, attempts);
      ghost var more: seq<Deed>;
      if !ok {
        more := FailTheApply(id, sid);
      } else {
        more := RunOnce(id, sid, repo, attempts + 1);
      }
      assert (did + more)[|did|..] == more;
      did := did + more;
    }

    method Resume(id: nat, repo: string, pr: int, conclusion: string) returns (ghost did: seq<Deed>)
      requires Valid() && id !in world.handlers
      modifies this`world, this`states, this`events, this`others, this`answers, this`timers
      ensures Valid() && id !in world.handlers
      ensures Deeds(id) == old(Deeds(id)) + did
      ensures if pr != 0 && conclusion in {"success", "failure"}
              then Resumes(did, cfg, id, workflow, repo, pr, conclusion == "success")
              else did == [] && events == old(events)
    {
      hide IsRun, DeedsOf, PRKey;
      did := [];
      if pr == 0 {
        return;
      }
      if conclusion != "success" && conclusion != "failure" {
        return;
      }
      var success, key := conclusion == "success", PRKey(repo, pr);
      var e := CheckRunArrives(id, workflow, repo, pr, success);
      var claimed;
      claimed, did := BeginWithClaim(id, e, key, CheckRun(repo, success));
      hide Enabled, Reports, Retries, AfterClaim, Resumes;
      if claimed.None? {
        NoClaimIsResumed(did, id, repo, pr, success);
        return;
      }
      timers := timers - {key};
      ghost var more := GoOn(id, repo, success, claimed.value);
      ClaimIsResumed(did, more, id, repo, pr, success);
      AppendTwice(old(Deeds(id)), did, more);
      did := did + more;
    }

    lemma NoClaimIsResumed(did: seq<Deed>, id: nat, repo: string, pr: int, success: bool)
      requires |did| == 2 && did[0] == Arrived(CheckRunArrives(id, workflow, repo, pr, success))
      requires Calls(did[1], Claim(PRKey(repo, pr), CheckRun(repo, success))) && !did[1].choice.Wins?
      ensures Resumes(did, cfg, id, workflow, repo, pr, success)
    {
    }

    lemma ClaimIsResumed(did: seq<Deed>, more: seq<Deed>, id: nat, repo: string, pr: int, success: bool)
      requires |did| == 2 && did[0] == Arrived(CheckRunArrives(id, workflow, repo, pr, success))
      requires Calls(did[1], Claim(PRKey(repo, pr), CheckRun(repo, success)))
      requires did[1].choice.Wins? && did[1].seen.Some?
      requires var run := did[1].seen.value;
               if success then Reports(more, run.sessionID, Success)
               else if run.attempts >= cfg.maxIter then Reports(more, run.sessionID, Exhausted)
               else Retries(more, workflow, run.sessionID, repo, run.attempts)
      ensures Resumes(did + more, cfg, id, workflow, repo, pr, success)
    {
      hide Reports, Retries, PRKey;
      assert (did + more)[2..] == more;
    }

    /** What comes of a claimed run, by the conclusion and the attempts made. */
    method GoOn(id: nat, repo: string, success: bool, run: ParkRecord) returns (ghost did: seq<Deed>)
      requires Valid() && At(id, AfterClaim(cfg, run, CheckRun(repo, success)), false, [])
      modifies this`world, this`states, this`events, this`others, this`answers, this`timers
      ensures Valid() && Deeds(id) == old(Deeds(id)) + did && id !in world.handlers
      ensures if success then Reports(did, run.sessionID, Success)
              else if run.attempts >= cfg.maxIter then Reports(did, run.sessionID, Exhausted)
              else Retries(did, workflow, run.sessionID, repo, run.attempts)
    {
      hide IsRun, DeedsOf, Reports, Retries;
      if success {
        did := Report(id, run.sessionID, Success, []);
        return;
      }
      if run.attempts >= cfg.maxIter {
        did := Report(id, run.sessionID, Exhausted, []);
        return;
      }
      did := Retry(id, run.sessionID, repo, run.attempts);
    }

    /** A soft timer; it may fire at any time, whatever has become of its run. */
    method OnTimeout(id: nat, key: string) returns (ghost did: seq<Deed>)
      requires Valid() && id !in world.handlers
      modifies this`world, this`states, this`events, this`others, this`answers, this`timers
      ensures Valid() && id !in world.handlers
      ensures Deeds(id) == old(Deeds(id)) + did && TimesOut(did, id, workflow, key)
    {
      var e := TimerFires(id, workflow, key);
      hide IsRun, DeedsOf, Reports;
      var claimed;
      claimed, did := BeginWithClaim(id, e, key, SoftTimer);
      hide Enabled;
      if claimed.None? {
        return;
      }
      timers := timers - {key};
      ghost var more := Report(id, claimed.value.sessionID, TimedOut, []);
      assert (did + more)[2..] == more;
      did := did + more;
    }

    /** The store's Sweep: row by row, one claim at a time, passing over those that fail. */
    method Sweep(id: nat, ghost cutoff: Time) returns (swept: seq<Sid>, keys: seq<string>, ghost did: seq<Deed>)
      requires Valid() && At(id, SweepClaim(cutoff), false, [])
      modifies this`world, this`states, this`events, this`others, this`answers
      ensures Valid() && Done(id, false, swept) && |keys| == |swept|
      ensures Deeds(id) == old(Deeds(id)) + did && Sweeps(did, cutoff) && Won(did) == swept
    {
      hide IsRun, DeedsOf;
      swept, keys, did := [], [], [];
      var more := true;
      while more
        invariant Valid() && Deeds(id) == old(Deeds(id)) + did && |keys| == |swept| && Won(did) == swept
        invariant if more then At(id, SweepClaim(cutoff), false, swept) else Done(id, false, swept)
        invariant if more
                  then forall i :: 0 <= i < |did| ==> Calls(did[i], SweepClaim(cutoff)) && !did[i].choice.FindsNothing?
                  else Sweeps(did, cutoff)
        decreases |answers| + if more then 1 else 0
      {
        var c, before;
        ghost var d;
        c, before, d := Call(id);
        assert (did + [d])[..|did|] == did;
        did := did + [d];
        if c.Wins? {
          swept, keys := swept + [c.sid], keys + [before.rows[c.sid].prKey];
        } else if c.FindsNothing? {
          more := false;
        }
      }
    }

    /** Done with an item is at the next. */
    lemma DoneIsAt(id: nat, sids: seq<Sid>, i: nat)
      requires i < |sids|
      ensures Done(id, false, sids[i..]) ==> At(id, Tell(sids[i], TimedOut), false, sids[i+1..])
      ensures Done(id, true, sids[i..]) ==> At(id, DeleteSession(sids[i], None), true, sids[i+1..])
    {
      assert sids[i..][0] == sids[i] && sids[i..][1..] == sids[i+1..];
    }

    method ReportNext(id: nat, swept: seq<Sid>, key: string, i: nat) returns (ghost did: seq<Deed>)
      requires i < |swept| && Valid() && Done(id, false, swept[i..])
      modifies this`world, this`states, this`events, this`others, this`answers, this`timers
      ensures Valid() && Deeds(id) == old(Deeds(id)) + did && Reports(did, swept[i], TimedOut)
      ensures Done(id, false, swept[i+1..])
    {
      hide IsRun, DeedsOf, Reports;
      DoneIsAt(id, swept, i);
      hide Done, At;
      timers := timers - {key};
      did := Report(id, swept[i], TimedOut, swept[i+1..]);
    }

    method ReportSwept(id: nat, swept: seq<Sid>, keys: seq<string>) returns (ghost did: seq<Deed>)
      requires Valid() && Done(id, false, swept) && |keys| == |swept|
      modifies this`world, this`states, this`events, this`others, this`answers, this`timers
      ensures Valid() && id !in world.handlers
      ensures Deeds(id) == old(Deeds(id)) + did && ReportsAll(did, swept, TimedOut)
    {
      did := [];
      hide IsRun, DeedsOf;
      for i := 0 to |swept|
        invariant Valid() && Done(id, false, swept[i..])
        invariant Deeds(id) == old(Deeds(id)) + did && ReportsAll(did, swept[..i], TimedOut)
      {
        hide ReportsAll, Reports, Done, At;
        ghost var more := ReportNext(id, swept, keys[i], i);
        OneMoreReported(did, swept[..i], more, swept[i], TimedOut);
        AppendTwice(old(Deeds(id)), did, more);
        assert swept[..i] + [swept[i]] == swept[..i+1];
        did := did + more;
      }
      assert swept[..|swept|] == swept;
    }

    /** All that the sweep claimed is reported and cleared, and all of it is on record. */
    method SweepTimeouts(id: nat) returns (ghost did: seq<Deed>)
      requires Valid() && id !in world.handlers
      modifies this`world, this`states, this`events, this`others, this`answers, this`timers
      ensures Valid() && id !in world.handlers
      ensures Deeds(id) == old(Deeds(id)) + did && SweepsTimeouts(did, id, workflow, old(world.now) - cfg.timeout)
      ensures forall d :: d in did && d.Made? && d.stage.SweepClaim? && d.choice.Wins? ==>
                Notice(d.choice.sid, TimedOut) in world.notices
    {
      var e, cutoff := TimeoutSweepStarts(id, workflow), world.now - cfg.timeout;
      hide IsRun, DeedsOf, Sweeps, Won, ReportsAll;
      Begin(id, e, SweepClaim(cutoff), false);
      hide Enabled;
      var swept, keys;
      ghost var claims;
      swept, keys, claims := Sweep(id, cutoff);
      ghost var reports := ReportSwept(id, swept, keys);
      did := [Arrived(e)] + claims + reports;
      SweepIsDone(did, id, workflow, cutoff, claims, reports);
      SweepIsNoted(id, did, cutoff);
    }

    /** The store's SweepOrphans: a list, and no claim. */
    method ListOrphans(id: nat, ghost cutoff: Time) returns (orphans: seq<Sid>, ghost d: Deed)
      requires Valid() && At(id, OrphanScan(cutoff), true, [])
      modifies this`world, this`states, this`events, this`others, this`answers
      ensures Valid() && Done(id, true, orphans)
      ensures Deeds(id) == old(Deeds(id)) + [d] && Calls(d, OrphanScan(cutoff))
      ensures orphans == if d.choice.Lists? then d.choice.sids else []
    {
      hide IsRun, DeedsOf;
      var c, before;
      c, before, d := Call(id);
      orphans := if c.Lists? then c.sids else [];
    }

    method ClearListed(id: nat, orphans: seq<Sid>) returns (ghost did: seq<Deed>)
      requires Valid() && Done(id, true, orphans)
      modifies this`world, this`states, this`events, this`others, this`answers
      ensures Valid() && id !in world.handlers
      ensures Deeds(id) == old(Deeds(id)) + did && ClearsAll(did, orphans)
    {
      did := [];
      hide IsRun, DeedsOf;
      for i := 0 to |orphans|
        invariant Valid() && Done(id, true, orphans[i..])
        invariant Deeds(id) == old(Deeds(id)) + did && ClearsAll(did, orphans[..i])
      {
        hide ClearsAll, Clears, Done, At;
        DoneIsAt(id, orphans, i);
        ghost var more := Clear(id, orphans[i], None, true, orphans[i+1..]);
        OneMoreCleared(did, orphans[..i], more, orphans[i]);
        AppendTwice(old(Deeds(id)), did, more);
        assert orphans[..i] + [orphans[i]] == orphans[..i+1];
        did := did + more;
      }
      assert orphans[..|orphans|] == orphans;
    }

    /** All that the scan listed is cleared. It never notifies. */
    method SweepOrphans(id: nat) returns (ghost did: seq<Deed>)
      requires Valid() && id !in world.handlers
      modifies this`world, this`states, this`events, this`others, this`answers
      ensures Valid() && id !in world.handlers
      ensures Deeds(id) == old(Deeds(id)) + did && SweepsOrphans(did, id, workflow, old(world.now) - cfg.orphanTTL)
      ensures forall d :: d in did ==> !Says(d)
    {
      var e, cutoff := OrphanSweepStarts(id, workflow), world.now - cfg.orphanTTL;
      hide IsRun, DeedsOf, ClearsAll;
      Begin(id, e, OrphanScan(cutoff), true);
      hide Enabled;
      var orphans;
      ghost var d;
      orphans, d := ListOrphans(id, cutoff);
      ghost var clears := ClearListed(id, orphans);
      did := [Arrived(e), d] + clears;
      assert did[2..] == clears;
      forall x | x in did ensures !Says(x) { OrphansAreSilent(did, id, workflow, cutoff, x); }
    }

    lemma SweepIsNoted(id: nat, did: seq<Deed>, cutoff: Time)
      requires Valid() && SweepsTimeouts(did, id, workflow, cutoff) && forall d :: d in did ==> d in Deeds(id)
      ensures forall d :: d in did && d.Made? && d.stage.SweepClaim? && d.choice.Wins? ==>
                Notice(d.choice.sid, TimedOut) in world.notices
    {
      hide IsRun, DeedsOf, SweepsTimeouts;
      forall d | d in did && d.Made? && d.stage.SweepClaim? && d.choice.Wins?
        ensures Notice(d.choice.sid, TimedOut) in world.notices
      {
        WinsAreReported(did, id, workflow, cutoff, d);
        var t :| t in did && Calls(t, Tell(d.choice.sid, TimedOut));
        ToldIsNoted(cfg, states, events, id, t);
      }
    }

    /** So the guarantees of the protocol are the driver's: here, that no run is reported twice. */
    lemma ReportsEachRunOnce(i: nat, j: nat)
      requires Valid() && i < j < |world.notices|
      ensures world.notices[i].sid != world.notices[j].sid
    {
      AtMostOneNotice(cfg, states, events, i, j);
    }

    /** And that what is reported has happened. */
    lemma ReportsAreTrue(n: Notice)
      requires Valid() && n in world.notices
      ensures exists k :: 0 <= k < |events| && Causes(cfg, states[k], events[k], n.sid, n.kind)
    {
      EveryNoticeIsTrue(cfg, states, events, |events|, n);
    }
  }

  lemma AppendTwice(a: seq<Deed>, b: seq<Deed>, c: seq<Deed>)
    ensures (a + b) + c == a + (b + c)
  {
  }

  lemma OneMoreReported(ds: seq<Deed>, sids: seq<Sid>, more: seq<Deed>, sid: Sid, kind: Kind)
    requires ReportsAll(ds, sids, kind) && Reports(more, sid, kind)
    ensures ReportsAll(ds + more, sids + [sid], kind)
  {
    hide Reports;
    var all, xs := ds + more, sids + [sid];
    assert all[..|ds|] == ds && all[|ds|..] == more && xs[..|sids|] == sids;
  }

  lemma OneMoreCleared(ds: seq<Deed>, sids: seq<Sid>, more: seq<Deed>, sid: Sid)
    requires ClearsAll(ds, sids) && Clears(more, sid, None)
    ensures ClearsAll(ds + more, sids + [sid])
  {
    hide Clears;
    var all, xs := ds + more, sids + [sid];
    assert all[..|ds|] == ds && all[|ds|..] == more && xs[..|sids|] == sids;
  }

  lemma SweepIsDone(did: seq<Deed>, id: nat, w: Workflow, cutoff: Time, claims: seq<Deed>, reports: seq<Deed>)
    requires did == [Arrived(TimeoutSweepStarts(id, w))] + claims + reports
    requires Sweeps(claims, cutoff) && ReportsAll(reports, Won(claims), TimedOut)
    ensures SweepsTimeouts(did, id, w, cutoff)
  {
    hide Sweeps, ReportsAll, Won;
    var n := 1 + |claims|;
    assert did[1..n] == claims && did[n..] == reports;
  }

  lemma LastHappens(cfg: Config, states: seq<State>, events: seq<Event>, s: State, id: nat, c: Choice, d: Deed)
    requires |states| == |events| + 1 && events != [] && states[|events|-1] == s && events[|events|-1] == Act(id, c)
    requires CanAct(s, id, c) && states[|events|] == ActStep(cfg, s, id, c)
    requires d == Made(s.handlers[id].stage, c, Seen(s, s.handlers[id].stage, c))
    ensures Happened(states, events, id, d, |events| - 1) && states[|events|].now == s.now
  {
    hide HandlerAfter, RowsAfter, SessionsAfter, DrivesAfter, Said, Seen;
    assert c.Wins? ==> c.sid in s.rows;
  }

  lemma ActIsEnabled(cfg: Config, s: State, id: nat, c: Choice)
    requires CanAct(s, id, c)
    ensures Enabled(s, Act(id, c)) && Next(cfg, s, Act(id, c)) == ActStep(cfg, s, id, c)
  {
  }
}
