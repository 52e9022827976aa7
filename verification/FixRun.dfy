/** The fix-run protocol: kick-offs, CI results, soft timers and the two sweeps, all running at once
    over one park store. Each store call, session call and notification is a step of its own; a step
    may fail without effect, and a handler may crash between any two of its steps. Claims are
    atomic, as the ParkStore interface demands. */
module FixRuns {
  import opened Wrappers
  import opened ParkColumns
  import Text

  datatype Config = Config(maxIter: int, timeout: Time, orphanTTL: Time)

  /** The five ways a run can end in a message to a human. */
  datatype Kind = Success | Exhausted | TimedOut | AlreadyClean | CouldNotApply

  datatype Notice = Notice(sid: Sid, kind: Kind)

  /** How a drive of the workflow engine came out. */
  datatype DriveResult = DriveFailed | DriveEnded(applyError: bool, clean: bool, callID: string, pr: int)

  datatype Cause = CheckRun(repo: string, success: bool) | SoftTimer

  /** Where a handler stands: the next store, session or notify call it will make. */
  datatype Stage =
    | PutParams(sid: Sid, repo: string, params: string)
    | StartDrive(sid: Sid, repo: string, attempt: int)
    | Driving(sid: Sid, repo: string, attempt: int)
    | ParkGet(sid: Sid, repo: string, key: string, callID: string, attempt: int)
    | ParkPut(sid: Sid, repo: string, record: ParkRecord)
    | Claim(key: string, cause: Cause)
    | RetryGet(sid: Sid, repo: string, attempts: int)
    | RetryPut(sid: Sid, repo: string, attempts: int, record: ParkRecord)
    | Tell(sid: Sid, kind: Kind)                       // notify, then clear
    | DeleteSession(sid: Sid, after: Option<Kind>)     // clear, then perhaps notify
    | DeleteRecord(sid: Sid, after: Option<Kind>)
    | TellAfter(sid: Sid, kind: Kind)
    | SweepClaim(cutoff: Time)
    | OrphanScan(cutoff: Time)

  /** A running handler. A sweep also has the sessions it has listed and not come to yet. */
  datatype Handler = Handler(workflow: Workflow, stage: Stage, reaping: bool, queue: seq<Sid>)

  datatype State = State(
    rows: Rows,
    sessions: set<(Workflow, Sid)>,   // the ADK sessions, by app and id
    handlers: map<nat, Handler>,
    notices: seq<Notice>,
    drives: map<Sid, nat>,            // lr.Start and lr.Resume calls made
    homes: map<Sid, Workflow>,        // every session id ever minted, and its engine
    now: Time)

  datatype Choice =
    | Works | Fails
    | Wins(sid: Sid) | FindsNothing
    | Drives(result: DriveResult)
    | Decodes(params: string)
    | Lists(sids: seq<Sid>)

  datatype Event =
    | Tick(now: Time)
    | KickoffArrives(id: nat, workflow: Workflow, repo: string, params: string, sid: Sid)
    | CheckRunArrives(id: nat, workflow: Workflow, repo: string, pr: int, success: bool)
    | TimerFires(id: nat, workflow: Workflow, key: string)
    | TimeoutSweepStarts(id: nat, workflow: Workflow)
    | OrphanSweepStarts(id: nat, workflow: Workflow)
    | Act(id: nat, choice: Choice)
    | Crash(id: nat)

  /** "owner/repo#number" */
  function PRKey(repo: string, number: int): (key: string)
    ensures key != ""
  {
    repo + "#" + Text.Itoa(number)
  }

  /** strings.Cut at the first '#', then strconv.Atoi with its error ignored. */
  function SplitPRKey(key: string): (string, int) {
    var i := Text.IndexOf(key, '#');
    if i == |key| then (key, 0)
    else (key[..i], Text.AtoiValue(key[i+1..]))
  }

  /** A timeout names the PR it is about exactly when the repository name has no '#'. */
  lemma SplitPRKeyInverts(repo: string, number: int)
    requires Text.IsInt64(number)
    ensures SplitPRKey(PRKey(repo, number)) == (repo, number) <==> '#' !in repo
  {
    var key := PRKey(repo, number);
    var i := Text.IndexOf(key, '#');
    assert key[|repo|] == '#';
    if '#' !in repo {
      assert key == repo + ['#'] + Text.Itoa(number);
      Text.IndexOfPrefix(repo, '#', Text.Itoa(number));
      assert key[i+1..] == Text.Itoa(number) && key[..i] == repo;
      Text.AtoiItoa(number);
    } else {
      var j :| 0 <= j < |repo| && repo[j] == '#';
      assert key[j] == '#';
      assert i <= j;
    }
  }

  function Count(m: map<Sid, nat>, s: Sid): nat { if s in m then m[s] else 0 }

  function ClearThen(sid: Sid, kind: Kind): Stage { DeleteSession(sid, Some(kind)) }

  /** failApply: clear, then ask a human. */
  function FailApply(sid: Sid): Stage { ClearThen(sid, CouldNotApply) }

  /** afterDrive: what follows a drive. */
  function AfterDrive(sid: Sid, repo: string, attempt: int, r: DriveResult): Stage {
    match r
    case DriveFailed => FailApply(sid)
    case DriveEnded(applyError, clean, callID, pr) =>
      if applyError then FailApply(sid)
      else if clean then ClearThen(sid, AlreadyClean)
      else if callID == "" then FailApply(sid)
      else if pr == 0 then FailApply(sid)
      else ParkGet(sid, repo, PRKey(repo, pr), callID, attempt)
  }

  /** What a won claim leads to. */
  function AfterClaim(cfg: Config, run: ParkRecord, cause: Cause): Stage {
    match cause
    case SoftTimer => Tell(run.sessionID, TimedOut)
    case CheckRun(repo, success) =>
      if success then Tell(run.sessionID, Success)
      else if run.attempts >= cfg.maxIter then Tell(run.sessionID, Exhausted)
      else RetryGet(run.sessionID, repo, run.attempts)
  }

  /** putRecord stamps the record and writes it. */
  function Stamped(r: ParkRecord, now: Time): ParkRecord { r.(updatedAt := now) }

  function Blank(sid: Sid): ParkRecord { ParkRecord(sid, "", "", "", 0, "", ZERO_TIME) }

  function Fresh(h: Handler): ParkRecord
    requires h.stage.PutParams?
  {
    Blank(h.stage.sid).(workflow := h.workflow, params := h.stage.params)
  }

  predicate CanAct(s: State, id: nat, c: Choice) {
    && id in s.handlers
    && var h := s.handlers[id];
    match h.stage
    case Driving(_, _, _) => c.Drives?
    case Claim(key, _) =>
      || c.Fails?
      || (c.FindsNothing? && (key == "" || Holders(s.rows, h.workflow, key) == {}))
      || (c.Wins? && key != "" && c.sid in Holders(s.rows, h.workflow, key))
    case RetryGet(sid, _, _) => c.Fails? || (c.Works? && sid !in s.rows) || (c.Decodes? && sid in s.rows)
    case SweepClaim(cutoff) => c.Fails? || c.FindsNothing?
        || (c.Wins? && c.sid in StaleSids(s.rows, h.workflow, cutoff))
    case OrphanScan(cutoff) =>
      || c.Fails?
      || (c.Lists? && (forall x :: x in c.sids ==> x in s.rows && Orphaned(s.rows[x], h.workflow, cutoff))
                   && (forall x :: x in s.rows && Orphaned(s.rows[x], h.workflow, cutoff) ==> x in c.sids)
                   && (forall i, j :: 0 <= i < j < |c.sids| ==> c.sids[i] != c.sids[j]))
    case _ => c.Works? || c.Fails?
  }

  /** What the step does to the table... */
  function RowsAfter(s: State, h: Handler, c: Choice): Rows
    requires c.Wins? ==> c.sid in s.rows
  {
    match h.stage
    case PutParams(_, _, _) => if c.Fails? then s.rows else PutRow(s.rows, Stamped(Fresh(h), s.now))
    case ParkPut(_, _, r) => if c.Fails? then s.rows else PutRow(s.rows, Stamped(r, s.now))
    case RetryPut(_, _, _, r) => if c.Fails? then s.rows else PutRow(s.rows, Stamped(r, s.now))
    case Claim(_, _) => if c.Wins? then ClaimRow(s.rows, c.sid) else s.rows
    case SweepClaim(_) => if c.Wins? then ClaimRow(s.rows, c.sid) else s.rows
    case DeleteRecord(sid, _) => if c.Fails? then s.rows else s.rows - {sid}
    case _ => s.rows
  }

  /** ... to the ADK sessions: the runner creates a missing one, and a drive that fails at once may not
      have got that far ... */
  function SessionsAfter(s: State, h: Handler, c: Choice): set<(Workflow, Sid)> {
    match h.stage
    case StartDrive(sid, _, _) => if c.Fails? then s.sessions else s.sessions + {(h.workflow, sid)}
    case DeleteSession(sid, _) => if c.Fails? then s.sessions else s.sessions - {(h.workflow, sid)}
    case _ => s.sessions
  }

  /** ... to the count of drives ... */
  function DrivesAfter(s: State, h: Handler): map<Sid, nat> {
    match h.stage
    case StartDrive(sid, _, _) => s.drives[sid := Count(s.drives, sid) + 1]
    case _ => s.drives
  }

  /** ... and what it says. A notification counts as sent even when the channel reports an error. */
  function Said(stage: Stage): seq<Notice> {
    match stage
    case Tell(sid, kind) => [Notice(sid, kind)]
    case TellAfter(sid, kind) => [Notice(sid, kind)]
    case _ => []
  }

  function Goto(h: Handler, stage: Stage): Option<Handler> { Some(h.(stage := stage)) }

  /** The handler turns to the next session of its sweep, or returns. */
  function Finish(h: Handler): Option<Handler> {
    if h.queue == [] then None
    else
      var stage := if h.reaping then DeleteSession(h.queue[0], None) else Tell(h.queue[0], TimedOut);
      Some(h.(stage := stage, queue := h.queue[1..]))
  }

  function AfterClear(h: Handler, sid: Sid, after: Option<Kind>): Option<Handler> {
    match after
    case None => Finish(h)
    case Some(kind) => Goto(h, TellAfter(sid, kind))
  }

  /** Where the handler goes next; None when it returns. */
  function HandlerAfter(cfg: Config, s: State, h: Handler, c: Choice): Option<Handler>
    requires c.Wins? ==> c.sid in s.rows
    requires h.stage.Driving? ==> c.Drives?
    requires h.stage.RetryGet? && c.Decodes? ==> h.stage.sid in s.rows
  {
    match h.stage
    case PutParams(sid, repo, _) => if c.Fails? then Finish(h) else Goto(h, StartDrive(sid, repo, 1))
    case StartDrive(sid, repo, attempt) => Goto(h, if c.Fails? then FailApply(sid) else Driving(sid, repo, attempt))
    case Driving(sid, repo, attempt) => Goto(h, AfterDrive(sid, repo, attempt, c.result))
    case ParkGet(sid, repo, key, callID, attempt) =>
      var r := if sid in s.rows then s.rows[sid] else Blank(sid);
      Goto(h, if c.Fails? then FailApply(sid)
              else ParkPut(sid, repo, r.(workflow := h.workflow, prKey := key, callID := callID, attempts := attempt)))
    case ParkPut(sid, _, _) => if c.Fails? then Goto(h, FailApply(sid)) else Finish(h)
    case Claim(_, cause) => if c.Wins? then Goto(h, AfterClaim(cfg, Unpark(s.rows[c.sid]), cause)) else Finish(h)
    case RetryGet(sid, repo, attempts) =>
      Goto(h, if c.Fails? then FailApply(sid)
              else if c.Decodes? then RetryPut(sid, repo, attempts, s.rows[sid].(params := c.params))
              else StartDrive(sid, repo, attempts + 1))
    case RetryPut(sid, repo, attempts, _) => Goto(h, if c.Fails? then FailApply(sid)
        else StartDrive(sid, repo, attempts + 1))
    case Tell(sid, _) => Goto(h, DeleteSession(sid, None))
    case DeleteSession(sid, after) => if c.Fails? then AfterClear(h, sid, after) else Goto(h, DeleteRecord(sid, after))
    case DeleteRecord(sid, after) => AfterClear(h, sid, after)
    case TellAfter(_, _) => Finish(h)
    case SweepClaim(_) =>
      if c.Fails? then Some(h) else if c.Wins? then Some(h.(queue := h.queue + [c.sid])) else Finish(h)
    case OrphanScan(_) => Finish(if c.Lists? then h.(queue := c.sids) else h)
  }

  /** One step of one handler. */
  function ActStep(cfg: Config, s: State, id: nat, c: Choice): State
    requires CanAct(s, id, c)
  {
    var h := s.handlers[id];
    s.(rows := RowsAfter(s, h, c),
       sessions := SessionsAfter(s, h, c),
       drives := DrivesAfter(s, h),
       notices := s.notices + Said(h.stage),
       handlers := match HandlerAfter(cfg, s, h, c)
                   case None => s.handlers - {id}
                   case Some(h') => s.handlers[id := h'])
  }

  predicate Enabled(s: State, e: Event) {
    match e
    case Tick(now) => now >= s.now
    case KickoffArrives(id, w, repo, params, sid) => id !in s.handlers && sid !in s.homes
    case CheckRunArrives(id, w, repo, pr, success) => id !in s.handlers
    case TimerFires(id, w, key) => id !in s.handlers
    case TimeoutSweepStarts(id, w) => id !in s.handlers
    case OrphanSweepStarts(id, w) => id !in s.handlers
    case Act(id, c) => CanAct(s, id, c)
    case Crash(id) => id in s.handlers
  }

  function Start(s: State, id: nat, w: Workflow, stage: Stage, reaping: bool): State {
    s.(handlers := s.handlers[id := Handler(w, stage, reaping, [])])
  }

  function Next(cfg: Config, s: State, e: Event): State
    requires Enabled(s, e)
  {
    match e
    case Tick(now) => s.(now := now)
    case KickoffArrives(id, w, repo, params, sid) =>
      Start(s.(homes := s.homes[sid := w]), id, w, PutParams(sid, repo, params), false)
    case CheckRunArrives(id, w, repo, pr, success) =>
      if pr == 0 then s else Start(s, id, w, Claim(PRKey(repo, pr), CheckRun(repo, success)), false)
    case TimerFires(id, w, key) => Start(s, id, w, Claim(key, SoftTimer), false)
    case TimeoutSweepStarts(id, w) => Start(s, id, w, SweepClaim(s.now - cfg.timeout), false)
    case OrphanSweepStarts(id, w) => Start(s, id, w, OrphanScan(s.now - cfg.orphanTTL), true)
    case Act(id, c) => ActStep(cfg, s, id, c)
    case Crash(id) => s.(handlers := s.handlers - {id})
  }

  ghost predicate Init(s: State) {
    s.rows == map[] && s.sessions == {} && s.handlers == map[] && s.notices == [] && s.drives == map[]
        && s.homes == map[]
  }

  ghost predicate IsRun(cfg: Config, states: seq<State>, events: seq<Event>) {
    && |states| == |events| + 1
    && Init(states[0])
    && forall i :: 0 <= i < |events| ==> Enabled(states[i], events[i]) && states[i+1] == Next(cfg, states[i], events[i])
  }
}
