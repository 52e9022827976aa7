/** Who may still speak for a run. A session that was kicked off has one token: it sits with the one
    handler that has yet to report on it, or in the store while the run is parked, or it is spent in a
    notification. Crashes, displaced parks and reaped records destroy tokens; nothing makes a second. */
module FixRunOwnership {
  import opened Wrappers
  import opened ParkColumns
  import opened FixRuns

  /** The session a stage is about, when the handler has yet to report on it. */
  function Owed(stage: Stage): Option<Sid> {
    match stage
    case PutParams(x, _, _) => Some(x)
    case StartDrive(x, _, _) => Some(x)
    case Driving(x, _, _) => Some(x)
    case ParkGet(x, _, _, _, _) => Some(x)
    case ParkPut(x, _, _) => Some(x)
    case RetryGet(x, _, _) => Some(x)
    case RetryPut(x, _, _, _) => Some(x)
    case Tell(x, _) => Some(x)
    case DeleteSession(x, after) => if after.Some? then Some(x) else None
    case DeleteRecord(x, after) => if after.Some? then Some(x) else None
    case TellAfter(x, _) => Some(x)
    case _ => None
  }

  function Owes(stage: Stage, x: Sid): nat { if Owed(stage) == Some(x) then 1 else 0 }

  /** How many tokens for x a handler has: its stage's, and one for each claimed run in its queue. */
  function InHand(h: Handler, x: Sid): nat {
    Owes(h.stage, x) + (if h.reaping then 0 else multiset(h.queue)[x])
  }

  function StillInHand(h: Option<Handler>, x: Sid): nat {
    if h.Some? then InHand(h.value, x) else 0
  }

  function HeldBy(s: State, id: nat, x: Sid): nat {
    if id in s.handlers then InHand(s.handlers[id], x) else 0
  }

  function InStore(rows: Rows, x: Sid): nat { if Parked(rows, x) then 1 else 0 }

  function Told(notices: seq<Notice>, x: Sid): nat {
    if notices == [] then 0
    else Told(notices[..|notices|-1], x) + if notices[|notices|-1].sid == x then 1 else 0
  }

  /** Tokens for x with handler `id`, in the store, and spent. */
  function Tokens(s: State, id: nat, x: Sid): nat {
    HeldBy(s, id, x) + InStore(s.rows, x) + Told(s.notices, x)
  }

  ghost predicate Owned(s: State) {
    && WellKeyed(s.rows)
    && (forall id, x :: Tokens(s, id, x) <= if x in s.homes then 1 else 0)
    && (forall i, j, x :: i != j ==> HeldBy(s, i, x) + HeldBy(s, j, x) <= 1)
    && (forall id :: id in s.handlers ==> HandlerOk(s.handlers[id]))
  }

  /** Records on their way to the store keep their session's id, and one rewritten for a retry is not
      parked. The orphan sweep only clears. */
  predicate HandlerOk(h: Handler) {
    && (h.reaping ==>
          h.stage.OrphanScan? || ((h.stage.DeleteSession? || h.stage.DeleteRecord?) && h.stage.after == None))
    && match h.stage
       case ParkPut(x, _, r) => r.sessionID == x && r.prKey != ""
       case ParkGet(_, _, key, _, _) => key != ""
       case RetryPut(x, _, _, r) => r.sessionID == x && r.prKey == ""
       case OrphanScan(_) => h.reaping
       case _ => true
  }

  lemma {:induction false} ToldAppend(notices: seq<Notice>, said: seq<Notice>, x: Sid)
    ensures Told(notices + said, x) == Told(notices, x) + Told(said, x)
    decreases |said|
  {
    if said == [] {
      assert notices + said == notices;
    } else {
      var n := |said| - 1;
      ToldAppend(notices, said[..n], x);
      assert (notices + said)[..|notices| + n] == notices + said[..n];
    }
  }

  lemma PutParks(rows: Rows, r: ParkRecord, x: Sid)
    ensures Parked(PutRow(rows, r), x) ==>
        if x == r.sessionID then r.prKey != "" else Parked(rows, x) && PutRow(rows, r)[x] == rows[x]
  {
  }

  /** A finished item drops its token, and the next one of a queue brings its own. */
  lemma FinishHand(h: Handler, x: Sid)
    requires HandlerOk(h)
    ensures StillInHand(Finish(h), x) + Owes(h.stage, x) <= InHand(h, x)
  {
    var q := h.queue;
    if q != [] {
      assert q == [q[0]] + q[1..];
      assert multiset(q)[x] == multiset([q[0]])[x] + multiset(q[1..])[x];
    }
  }

  /** A parked row is one that was parked and is untouched, or the one just parked. */
  lemma ParkedOrigin(s: State, id: nat, c: Choice, x: Sid)
    requires CanAct(s, id, c) && HandlerOk(s.handlers[id])
    ensures var rows', h := RowsAfter(s, s.handlers[id], c), s.handlers[id];
            Parked(rows', x) ==>
              || (Parked(s.rows, x) && rows'[x] == s.rows[x] && c != Wins(x))
              || (h.stage.ParkPut? && h.stage.sid == x && !c.Fails? && rows'[x] == Stamped(h.stage.record, s.now))
  {
    var h := s.handlers[id];
    match h.stage {
      case PutParams(_, _, _) => PutParks(s.rows, Stamped(Fresh(h), s.now), x);
      case ParkPut(_, _, r) => PutParks(s.rows, Stamped(r, s.now), x);
      case RetryPut(_, _, _, r) => PutParks(s.rows, Stamped(r, s.now), x);
      case _ =>
    }
  }

  function Wins1(c: Choice, x: Sid): nat { if c == Wins(x) then 1 else 0 }

  function Parks1(h: Handler, c: Choice, x: Sid): nat {
    if h.stage.ParkPut? && h.stage.sid == x && !c.Fails? then 1 else 0
  }

  /** The store gives a token to the winner of a claim and takes one from a handler that parks. */
  lemma StoreConserves(s: State, id: nat, c: Choice, x: Sid)
    requires WellKeyed(s.rows) && CanAct(s, id, c) && HandlerOk(s.handlers[id])
    ensures InStore(RowsAfter(s, s.handlers[id], c), x) + Wins1(c, x) <= InStore(s.rows, x)
        + Parks1(s.handlers[id], c, x)
  {
    ParkedOrigin(s, id, c, x);
    if c.Wins? {
      assert Parked(s.rows, c.sid);
    }
    hide PutRow;
  }

  lemma ToldSaid(stage: Stage, x: Sid)
    ensures Told(Said(stage), x) <= Owes(stage, x)
    ensures Said(stage) == [] ==> Told(Said(stage), x) == 0
  {
    assert Said(stage) != [] ==> Said(stage)[..|Said(stage)|-1] == [];
  }

  /** A handler goes on with the token it had, or with the one it has won. */
  ghost predicate HandKept(cfg: Config, s: State, h: Handler, c: Choice, x: Sid)
    requires c.Wins? ==> c.sid in s.rows
    requires h.stage.Driving? ==> c.Drives?
    requires h.stage.RetryGet? && c.Decodes? ==> h.stage.sid in s.rows
  {
    StillInHand(HandlerAfter(cfg, s, h, c), x) + Told(Said(h.stage), x) + Parks1(h, c, x) <= InHand(h, x) + Wins1(c, x)
  }

  lemma ClaimKeepsHand(cfg: Config, s: State, id: nat, c: Choice, x: Sid)
    requires WellKeyed(s.rows) && CanAct(s, id, c) && HandlerOk(s.handlers[id]) && s.handlers[id].stage.Claim?
    ensures HandKept(cfg, s, s.handlers[id], c, x)
  {
    FinishHand(s.handlers[id], x);
    assert c.Wins? ==> s.rows[c.sid].sessionID == c.sid;
    hide WellKeyed, Finish;
  }

  lemma DriveKeepsHand(cfg: Config, s: State, id: nat, c: Choice, x: Sid)
    requires CanAct(s, id, c) && s.handlers[id].stage.Driving?
    ensures HandKept(cfg, s, s.handlers[id], c, x)
  {
  }

  lemma SweepKeepsHand(cfg: Config, s: State, id: nat, c: Choice, x: Sid)
    requires CanAct(s, id, c) && HandlerOk(s.handlers[id])
    requires s.handlers[id].stage.SweepClaim? || s.handlers[id].stage.OrphanScan?
    ensures HandKept(cfg, s, s.handlers[id], c, x)
  {
    var h := s.handlers[id];
    FinishHand(h, x);
    if c.Lists? {
      FinishHand(h.(queue := c.sids), x);
    }
  }

  lemma OtherKeepsHand(cfg: Config, s: State, id: nat, c: Choice, x: Sid)
    requires CanAct(s, id, c) && HandlerOk(s.handlers[id])
    requires var t := s.handlers[id].stage; !t.Claim? && !t.Driving? && !t.SweepClaim? && !t.OrphanScan?
    ensures HandKept(cfg, s, s.handlers[id], c, x)
  {
    var h := s.handlers[id];
    FinishHand(h, x);
    ToldSaid(h.stage, x);
    hide Finish, Told;
  }

  lemma HandConserves(cfg: Config, s: State, id: nat, c: Choice, x: Sid)
    requires WellKeyed(s.rows) && CanAct(s, id, c) && HandlerOk(s.handlers[id])
    ensures HandKept(cfg, s, s.handlers[id], c, x)
  {
    assert id in s.handlers;
    hide HandKept, WellKeyed, CanAct, HandlerOk;
    match s.handlers[id].stage
    case Claim(_, _) => ClaimKeepsHand(cfg, s, id, c, x);
    case Driving(_, _, _) => DriveKeepsHand(cfg, s, id, c, x);
    case SweepClaim(_) => SweepKeepsHand(cfg, s, id, c, x);
    case OrphanScan(_) => SweepKeepsHand(cfg, s, id, c, x);
    case _ => OtherKeepsHand(cfg, s, id, c, x);
  }

  /** Conservation: a handler's step moves tokens and destroys them, and makes none. */
  lemma HandlerConserves(cfg: Config, s: State, id: nat, c: Choice, x: Sid)
    requires WellKeyed(s.rows) && CanAct(s, id, c) && HandlerOk(s.handlers[id])
    ensures var h := s.handlers[id];
            StillInHand(HandlerAfter(cfg, s, h, c), x) + InStore(RowsAfter(s, h, c), x) + Told(Said(h.stage), x)
              <= InHand(h, x) + InStore(s.rows, x)
  {
    StoreConserves(s, id, c, x);
    HandConserves(cfg, s, id, c, x);
    assert HandKept(cfg, s, s.handlers[id], c, x);
    hide RowsAfter, HandlerAfter, Said, Told, InHand, InStore, Parks1, Wins1;
  }

  lemma ActConserves(cfg: Config, s: State, id: nat, c: Choice, x: Sid)
    requires Owned(s) && CanAct(s, id, c)
    ensures Tokens(ActStep(cfg, s, id, c), id, x) <= Tokens(s, id, x)
    ensures Told(ActStep(cfg, s, id, c).notices, x) >= Told(s.notices, x)
  {
    HandlerConserves(cfg, s, id, c, x);
    ToldAppend(s.notices, Said(s.handlers[id].stage), x);
  }

  /** While a handler holds a session's token, the session is not parked. */
  lemma HeldIsNotParked(s: State, id: nat, x: Sid)
    requires Owned(s) && HeldBy(s, id, x) > 0
    ensures !Parked(s.rows, x) && Told(s.notices, x) == 0 && x in s.homes && HeldBy(s, id, x) == 1
  {
    assert Tokens(s, id, x) <= if x in s.homes then 1 else 0;
  }

  lemma ActKeepsShape(cfg: Config, s: State, id: nat, c: Choice)
    requires Owned(s) && CanAct(s, id, c)
    ensures var h' := HandlerAfter(cfg, s, s.handlers[id], c); h'.Some? ==> HandlerOk(h'.value)
    ensures WellKeyed(RowsAfter(s, s.handlers[id], c))
  {
    var h := s.handlers[id];
    assert HandlerOk(h);
    if h.stage.RetryGet? {
      HeldIsNotParked(s, id, h.stage.sid);
    }
  }

  lemma ActKeepsOwned(cfg: Config, s: State, id: nat, c: Choice)
    requires Owned(s) && CanAct(s, id, c)
    ensures Owned(ActStep(cfg, s, id, c))
  {
    var s' := ActStep(cfg, s, id, c);
    ActKeepsShape(cfg, s, id, c);
    forall i, j, x
      ensures Tokens(s', j, x) <= if x in s'.homes then 1 else 0
      ensures i != j ==> HeldBy(s', i, x) + HeldBy(s', j, x) <= 1
    {
      ActConserves(cfg, s, id, c, x);
      assert Tokens(s, id, x) <= if x in s.homes then 1 else 0;
      assert Tokens(s, i, x) <= if x in s.homes then 1 else 0;
      assert Tokens(s, j, x) <= if x in s.homes then 1 else 0;
      assert i != j ==> HeldBy(s, i, x) + HeldBy(s, j, x) <= 1;
      assert id != j ==> HeldBy(s, id, x) + HeldBy(s, j, x) <= 1;
      assert i != id ==> HeldBy(s, i, x) + HeldBy(s, id, x) <= 1;
    }
  }

  /** What arrives from outside: only a kick-off makes a token, for a session id never used before. */
  lemma ArrivalTokens(cfg: Config, s: State, e: Event, i: nat, x: Sid)
    requires Owned(s) && Enabled(s, e) && !e.Act?
    ensures var s' := Next(cfg, s, e);
            var minted := if e.KickoffArrives? && e.id == i && e.sid == x then 1 else 0;
            Tokens(s', i, x) <= Tokens(s, i, x) + minted && HeldBy(s', i, x) <= HeldBy(s, i, x) + minted
            && s'.rows == s.rows && s'.notices == s.notices
  {
  }

  lemma ArrivalShape(cfg: Config, s: State, e: Event, i: nat)
    requires Owned(s) && Enabled(s, e) && !e.Act? && i in Next(cfg, s, e).handlers
    ensures HandlerOk(Next(cfg, s, e).handlers[i])
  {
  }

  lemma StepKeepsOwned(cfg: Config, s: State, e: Event)
    requires Owned(s) && Enabled(s, e)
    ensures Owned(Next(cfg, s, e))
  {
    if e.Act? {
      ActKeepsOwned(cfg, s, e.id, e.choice);
    } else {
      var s' := Next(cfg, s, e);
      assert s'.rows == s.rows;
      forall i, j, x
        ensures Tokens(s', i, x) <= if x in s'.homes then 1 else 0
        ensures i != j ==> HeldBy(s', i, x) + HeldBy(s', j, x) <= 1
      {
        ArrivalTokens(cfg, s, e, i, x);
        ArrivalTokens(cfg, s, e, j, x);
        assert Tokens(s, i, x) <= if x in s.homes then 1 else 0;
        assert Tokens(s, j, x) <= if x in s.homes then 1 else 0;
        assert i != j ==> HeldBy(s, i, x) + HeldBy(s, j, x) <= 1;
      }
      forall i | i in s'.handlers ensures HandlerOk(s'.handlers[i]) {
        ArrivalShape(cfg, s, e, i);
      }
    }
  }

  lemma {:induction false} OwnedThroughout(cfg: Config, states: seq<State>, events: seq<Event>, n: nat)
    requires IsRun(cfg, states, events) && n < |states|
    ensures Owned(states[n])
  {
    if n > 0 {
      OwnedThroughout(cfg, states, events, n - 1);
      StepKeepsOwned(cfg, states[n-1], events[n-1]);
    }
  }

  lemma {:induction false} OneNoticeCounts(notices: seq<Notice>, i: nat)
    requires i < |notices|
    ensures Told(notices, notices[i].sid) >= 1
    decreases |notices|
  {
    if i < |notices| - 1 {
      OneNoticeCounts(notices[..|notices|-1], i);
    }
  }

  lemma {:induction false} TwoNoticesCount(notices: seq<Notice>, i: nat, j: nat)
    requires i < j < |notices| && notices[i].sid == notices[j].sid
    ensures Told(notices, notices[i].sid) >= 2
    decreases |notices|
  {
    var n := |notices| - 1;
    if j == n {
      OneNoticeCounts(notices[..n], i);
    } else {
      TwoNoticesCount(notices[..n], i, j);
    }
  }

  /** Main result. In every interleaving of kick-offs, CI results, duplicate deliveries, early timers,
      both sweeps, failures and crashes, no run is reported twice. */
  lemma AtMostOneNotice(cfg: Config, states: seq<State>, events: seq<Event>, i: nat, j: nat)
    requires IsRun(cfg, states, events)
    requires i < j < |states[|events|].notices|
    ensures states[|events|].notices[i].sid != states[|events|].notices[j].sid
  {
    var s := states[|events|];
    OwnedThroughout(cfg, states, events, |events|);
    assert Tokens(s, 0, s.notices[i].sid) <= 1;
    if s.notices[i].sid == s.notices[j].sid {
      TwoNoticesCount(s.notices, i, j);
    }
  }

  /** One handler has yet to report on the session. */
  ghost predicate InOneHand(s: State, x: Sid) {
    && x in s.homes && !Parked(s.rows, x) && Told(s.notices, x) == 0
    && exists i :: HeldBy(s, i, x) == 1 && forall j :: j != i ==> HeldBy(s, j, x) == 0
  }

  ghost predicate InNoHand(s: State, x: Sid) { forall i :: HeldBy(s, i, x) == 0 }

  /** It is parked and unreported. */
  ghost predicate Waiting(s: State, x: Sid) {
    InNoHand(s, x) && x in s.homes && Parked(s.rows, x) && Told(s.notices, x) == 0
  }

  /** It is left unparked: a crash, a displaced park, or the clearing after a report. */
  ghost predicate LeftBehind(s: State, x: Sid) {
    InNoHand(s, x) && x in s.rows && !Parked(s.rows, x) && Told(s.notices, x) <= 1
  }

  ghost predicate Recordless(s: State, x: Sid) { InNoHand(s, x) && x !in s.rows && Told(s.notices, x) <= 1 }

  /** Main result: a session is in one of four places, and in each but the last two it is unreported. */
  lemma OneOfFour(cfg: Config, states: seq<State>, events: seq<Event>, n: nat, x: Sid)
    requires IsRun(cfg, states, events) && n < |states|
    ensures var s := states[n];
            && (InOneHand(s, x) || Waiting(s, x) || LeftBehind(s, x) || Recordless(s, x))
            && !(InOneHand(s, x) && InNoHand(s, x))
  {
    OwnedThroughout(cfg, states, events, n);
    var s := states[n];
    assert Tokens(s, 0, x) <= if x in s.homes then 1 else 0;
    if i :| HeldBy(s, i, x) > 0 {
      HeldIsNotParked(s, i, x);
      forall j | j != i ensures HeldBy(s, j, x) == 0 {
        assert HeldBy(s, i, x) + HeldBy(s, j, x) <= 1;
      }
      assert InOneHand(s, x);
    } else {
      assert InNoHand(s, x);
    }
  }

  predicate Ownerless(s: State, x: Sid) {
    !Parked(s.rows, x) && forall i :: i in s.handlers ==> InHand(s.handlers[i], x) == 0
  }

  /** A session that is unparked with no handler to report on it stays silent for good. */
  lemma SilentForGood(cfg: Config, s: State, e: Event, x: Sid)
    requires Owned(s) && Enabled(s, e) && x in s.homes && Ownerless(s, x)
    ensures Ownerless(Next(cfg, s, e), x) && Told(Next(cfg, s, e).notices, x) == Told(s.notices, x)
  {
    var s' := Next(cfg, s, e);
    if e.Act? {
      assert HeldBy(s, e.id, x) == 0;
      ActConserves(cfg, s, e.id, e.choice, x);
    }
    forall i
      ensures i in s'.handlers ==> InHand(s'.handlers[i], x) == 0
    {
      if !e.Act? {
        ArrivalTokens(cfg, s, e, i, x);
      }
    }
    if !e.Act? {
      ArrivalTokens(cfg, s, e, 0, x);
    }
  }
}
