/** Claims that take more than one statement. The sqlite store reads a row and then clears its key
    with a conditional update; the firestore store scans and then claims document by document. Here
    every statement is a step of its own and any number of actors interleave. */
module ClaimRaces {
  import opened ParkColumns

  /** A row as a statement read it; `version` is how often its session had been written. */
  datatype Reading = Reading(row: ParkRecord, version: nat)

  datatype Actor =
    // putRecord has stamped the record and cleared the key's other holders; the write is to come
    | Writer(record: ParkRecord)
    // sqlite ResolveByPRKey has read a row
    | Resolver(seen: Reading)
    // sqlite Sweep has scanned; a conditional update is to come for each row
    | Sweeper(workflow: Workflow, cutoff: Time, pending: seq<Reading>)
    // firestore Sweep has scanned; a transaction is to come for each (session, key)
    | DocSweeper(workflow: Workflow, cutoff: Time, pending: seq<Reading>)

  /** A claim that won: the row as the table held it at the swap, and the record handed back. The
      sqlite claims hand back the row of write number `read`; the row they take is write `written`. */
  datatype Win =
    | ResolveWin(stored: ParkRecord, returned: ParkRecord, read: nat, written: nat)
    | SweepWin(stored: ParkRecord, returned: ParkRecord, workflow: Workflow, cutoff: Time, read: nat, written: nat)
    | DocResolveWin(stored: ParkRecord, returned: ParkRecord, workflow: Workflow, key: string)
    | DocSweepWin(stored: ParkRecord, returned: ParkRecord, workflow: Workflow, cutoff: Time)

  datatype State = State(
    rows: Rows,
    actors: map<nat, Actor>,
    now: Time,
    saves: map<Sid, seq<ParkRecord>>,   // what was written under each session, in order
    wins: seq<Win>)

  datatype Event =
    | Tick(now: Time)
    | PutClear(actor: nat, record: ParkRecord)
    | Save(actor: nat)
    | ResolveRead(actor: nat, workflow: Workflow, key: string, sid: Sid)
    | ResolveSwap(actor: nat)
    | Scan(actor: nat, scanner: Actor)
    | SweepSwap(actor: nat)
    | ResolveTransaction(workflow: Workflow, key: string, sid: Sid)
    | Delete(sid: Sid)
    | Crash(actor: nat)

  function SavesOf(s: State, sid: Sid): seq<ParkRecord> { if sid in s.saves then s.saves[sid] else [] }

  function Read(s: State, sid: Sid): Reading
    requires sid in s.rows
  {
    Reading(s.rows[sid], |SavesOf(s, sid)|)
  }

  function Swap(s: State, sid: Sid, win: Win): State
    requires sid in s.rows
  {
    s.(rows := ClaimRow(s.rows, sid), wins := s.wins + [win])
  }

  predicate Scans(a: Actor) { a.Sweeper? || a.DocSweeper? }

  function Rest(a: Actor): Actor
    requires Scans(a) && a.pending != []
  {
    a.(pending := a.pending[1..])
  }

  /** The rows a scan selects. The sqlite query has no test for a zero stamp. */
  predicate Selects(a: Actor, r: ParkRecord) {
    (a.Sweeper? && r.workflow == a.workflow && r.prKey != "" && r.updatedAt < a.cutoff)
    || (a.DocSweeper? && StaleParked(r, a.workflow, a.cutoff))
  }

  /** A scan holds the selected rows, exactly as the table does. */
  ghost predicate FreshScan(s: State, a: Actor) {
    && Scans(a)
    && (forall r :: r in a.pending ==>
          r.row.sessionID in s.rows && r == Read(s, r.row.sessionID) && Selects(a, r.row))
    && (forall sid :: sid in s.rows && Selects(a, s.rows[sid]) ==> Read(s, sid) in a.pending)
  }

  /** What may happen next. `timeout` is CI_TIMEOUT: a sweep's cutoff lies that far behind the clock.
      A record is stamped as its write begins; how late the write lands is open. */
  ghost predicate Enabled(timeout: Time, s: State, e: Event) {
    match e
    case Tick(now) => now >= s.now
    case PutClear(t, r) => t !in s.actors && r.updatedAt == s.now && r.updatedAt != ZERO_TIME
    case Save(t) => t in s.actors && s.actors[t].Writer?
    case ResolveRead(t, w, key, sid) => t !in s.actors && key != "" && sid in Holders(s.rows, w, key)
    case ResolveSwap(t) => t in s.actors && s.actors[t].Resolver?
    case Scan(t, a) => t !in s.actors && FreshScan(s, a) && a.cutoff <= s.now - timeout
    case SweepSwap(t) => t in s.actors && Scans(s.actors[t]) && s.actors[t].pending != []
    case ResolveTransaction(w, key, sid) => key != "" && sid in Holders(s.rows, w, key)
    case Delete(sid) => true
    case Crash(t) => t in s.actors
  }

  function SaveRow(s: State, r: ParkRecord): State {
    s.(rows := s.rows[r.sessionID := r], saves := s.saves[r.sessionID := SavesOf(s, r.sessionID) + [r]])
  }

  /** UPDATE ... SET pr_key = '' WHERE session_id = ? AND pr_key = ?; the record handed back is the
      row read earlier. */
  function ResolveSwapped(s: State, seen: Reading): State {
    var sid := seen.row.sessionID;
    if sid in s.rows && s.rows[sid].prKey == seen.row.prKey
    then Swap(s, sid, ResolveWin(s.rows[sid], Unpark(seen.row), seen.version, |SavesOf(s, sid)|))
    else s
  }

  function SweepSwapped(s: State, a: Actor): State
    requires Scans(a) && a.pending != []
  {
    var seen := a.pending[0];
    var sid := seen.row.sessionID;
    if sid !in s.rows || s.rows[sid].prKey != seen.row.prKey || s.rows[sid].updatedAt >= a.cutoff then s
    else if a.Sweeper? then
      // the conditional update also tests updated_at; the record handed back is the scanned row
      Swap(s, sid, SweepWin(s.rows[sid], seen.row, a.workflow, a.cutoff, seen.version, |SavesOf(s, sid)|))
    else if s.rows[sid].workflow != a.workflow || s.rows[sid].updatedAt == ZERO_TIME then s
    else
      // the transaction reads the document again; only the key is restored from the scan
      Swap(s, sid, DocSweepWin(s.rows[sid], s.rows[sid].(prKey := seen.row.prKey), a.workflow, a.cutoff))
  }

  ghost function Next(timeout: Time, s: State, e: Event): State
    requires Enabled(timeout, s, e)
  {
    match e
    case Tick(now) => s.(now := now)
    case PutClear(t, r) => s.(rows := ClearOthers(s.rows, r), actors := s.actors[t := Writer(r)])
    case Save(t) => SaveRow(s.(actors := s.actors - {t}), s.actors[t].record)
    case ResolveRead(t, w, key, sid) => s.(actors := s.actors[t := Resolver(Read(s, sid))])
    case ResolveSwap(t) => ResolveSwapped(s.(actors := s.actors - {t}), s.actors[t].seen)
    case Scan(t, a) => s.(actors := s.actors[t := a])
    case SweepSwap(t) => SweepSwapped(s.(actors := s.actors[t := Rest(s.actors[t])]), s.actors[t])
    case ResolveTransaction(w, key, sid) => Swap(s, sid, DocResolveWin(s.rows[sid], Unpark(s.rows[sid]), w, key))
    case Delete(sid) => s.(rows := s.rows - {sid})
    case Crash(t) => s.(actors := s.actors - {t})
  }

  ghost predicate Init(s: State) {
    s.rows == map[] && s.actors == map[] && s.saves == map[] && s.wins == []
  }

  ghost predicate IsRun(timeout: Time, states: seq<State>, events: seq<Event>) {
    && |states| == |events| + 1
    && Init(states[0])
    && forall i :: 0 <= i < |events| ==>
        Enabled(timeout, states[i], events[i]) && states[i+1] == Next(timeout, states[i], events[i])
  }

  predicate SameAt(rows: Rows, rows': Rows, sid: Sid) {
    (sid in rows' <==> sid in rows) && (sid in rows ==> rows'[sid] == rows[sid])
  }

  /** What the steps do to the table, in words: beginning a put takes its key from the workflow's other
      sessions, the save puts the record there, a deletion takes the row, and a swap changes at most one
      row, whose key it clears. */
  lemma StepsInWords(timeout: Time, s: State, e: Event, sid: Sid)
    requires Enabled(timeout, s, e)
    ensures e.PutClear? ==>
              var rows, rows', r := s.rows, Next(timeout, s, e).rows, e.record;
              (sid in rows' <==> sid in rows)
              && (sid in rows ==>
                    var taken := sid != r.sessionID && r.prKey != "" && rows[sid].prKey == r.prKey
                                 && rows[sid].workflow == r.workflow;
                    rows'[sid] == if taken then rows[sid].(prKey := "") else rows[sid])
    ensures e.Save? ==>
              var r, rows' := s.actors[e.actor].record, Next(timeout, s, e).rows;
              r.sessionID in rows' && rows'[r.sessionID] == r && (sid != r.sessionID ==> SameAt(s.rows, rows', sid))
    ensures e.Delete? ==>
              var rows' := Next(timeout, s, e).rows; e.sid !in rows' && (sid != e.sid ==> SameAt(s.rows, rows', sid))
    ensures !e.PutClear? && !e.Save? && !e.Delete? ==>
              var rows, rows' := s.rows, Next(timeout, s, e).rows;
              SameAt(rows, rows', sid) || (sid in rows && sid in rows' && rows'[sid] == rows[sid].(prKey := ""))
  {
  }

  /* What holds in every run. */

  function WinsOf(wins: seq<Win>, s: Sid): nat {
    if wins == [] then 0
    else WinsOf(wins[..|wins|-1], s) + if wins[|wins|-1].stored.sessionID == s then 1 else 0
  }

  /** How often a session was parked: its writes with a key. */
  function TimesParked(saves: seq<ParkRecord>): nat {
    if saves == [] then 0
    else TimesParked(saves[..|saves|-1]) + if saves[|saves|-1].prKey != "" then 1 else 0
  }

  /** Every time a session was parked is still open, was won, or was lost: never won twice. */
  ghost predicate Budget(s: State, sid: Sid) {
    WinsOf(s.wins, sid) + (if Parked(s.rows, sid) then 1 else 0) <= TimesParked(SavesOf(s, sid))
  }

  /** A row is what was last written under its session, up to a cleared key. */
  ghost predicate RowIsLast(s: State, sid: Sid) {
    sid in s.rows ==>
      && s.rows[sid].sessionID == sid && SavesOf(s, sid) != []
      && var last := SavesOf(s, sid)[|SavesOf(s, sid)|-1]; s.rows[sid] == last || s.rows[sid] == Unpark(last)
  }

  /** Write number k of the session was this very record. */
  ghost predicate Written(s: State, r: ParkRecord, k: nat) {
    r.prKey != "" && 1 <= k <= |SavesOf(s, r.sessionID)| && SavesOf(s, r.sessionID)[k-1] == r
  }

  ghost predicate ActorOk(s: State, a: Actor) {
    match a
    case Writer(_) => true
    case Resolver(seen) => Written(s, seen.row, seen.version)
    case _ =>
      forall r :: r in a.pending ==>
        Written(s, r.row, r.version) && r.row.workflow == a.workflow && r.row.updatedAt < a.cutoff
  }

  ghost predicate WinOk(s: State, w: Win) {
    w.stored.prKey != ""
    && match w
       case ResolveWin(stored, returned, read, written) =>
         && Written(s, stored, written) && read <= written
         && Written(s, returned.(prKey := stored.prKey), read)
         && returned.sessionID == stored.sessionID && returned.prKey == ""
       case SweepWin(stored, returned, workflow, cutoff, read, written) =>
         && Written(s, stored, written) && Written(s, returned, read) && read <= written
         && returned.sessionID == stored.sessionID && returned.prKey == stored.prKey
         && stored.updatedAt < cutoff && returned.updatedAt < cutoff && returned.workflow == workflow
       case DocResolveWin(stored, returned, workflow, key) =>
         stored.workflow == workflow && stored.prKey == key && returned == Unpark(stored)
       case DocSweepWin(stored, returned, workflow, cutoff) =>
         stored.workflow == workflow && ZERO_TIME != stored.updatedAt < cutoff && returned == stored
  }

  ghost predicate Inv(s: State) {
    && (forall sid :: RowIsLast(s, sid))
    && (forall sid :: Budget(s, sid))
    && (forall t :: t in s.actors ==> ActorOk(s, s.actors[t]))
    && (forall i :: 0 <= i < |s.wins| ==> WinOk(s, s.wins[i]))
  }

  lemma OneMoreWin(wins: seq<Win>, w: Win, sid: Sid)
    ensures WinsOf(wins + [w], sid) == WinsOf(wins, sid) + if w.stored.sessionID == sid then 1 else 0
  {
    assert (wins + [w])[..|wins|] == wins;
  }

  lemma OneMoreSave(saves: seq<ParkRecord>, r: ParkRecord)
    ensures TimesParked(saves + [r]) == TimesParked(saves) + if r.prKey != "" then 1 else 0
  {
    assert (saves + [r])[..|saves|] == saves;
  }

  predicate MayWin(e: Event) { e.ResolveSwap? || e.SweepSwap? || e.ResolveTransaction? }

  /** A parked row is the last write of its session. */
  lemma ParkedRow(s: State, sid: Sid)
    requires RowIsLast(s, sid) && Parked(s.rows, sid)
    ensures s.rows[sid].sessionID == sid && Written(s, s.rows[sid], |SavesOf(s, sid)|)
  {
  }

  /** The win takes a parked row of the table and clears its key. */
  ghost predicate Takes(s: State, s': State, w: Win) {
    && WinOk(s, w) && s'.wins == s.wins + [w]
    && Parked(s.rows, w.stored.sessionID) && w.stored == s.rows[w.stored.sessionID]
    && s'.rows == ClaimRow(s.rows, w.stored.sessionID)
  }

  /** A swap that wins takes one row; any other changes neither rows nor wins. */
  lemma SwapStep(timeout: Time, s: State, e: Event)
    requires Inv(s) && Enabled(timeout, s, e) && MayWin(e)
    ensures var s' := Next(timeout, s, e);
            s'.saves == s.saves && ((s'.rows == s.rows && s'.wins == s.wins) || exists w :: Takes(s, s', w))
  {
    var s' := Next(timeout, s, e);
    if s'.wins != s.wins {
      var w := s'.wins[|s.wins|];
      match e {
        case ResolveSwap(t) =>
          var seen := s.actors[t].seen;
          assert ActorOk(s, s.actors[t]);
          ParkedRow(s, seen.row.sessionID);
          assert w.returned.(prKey := w.stored.prKey) == seen.row;
        case SweepSwap(t) =>
          var seen := s.actors[t].pending[0];
          assert seen in s.actors[t].pending && ActorOk(s, s.actors[t]);
          ParkedRow(s, seen.row.sessionID);
        case ResolveTransaction(_, _, sid) => ParkedRow(s, sid);
        case _ =>
      }
      assert Takes(s, s', w);
    }
  }

  lemma TakingKeepsBudget(s: State, s': State, w: Win, sid: Sid)
    requires Takes(s, s', w) && s'.saves == s.saves && Budget(s, sid) && RowIsLast(s, w.stored.sessionID)
    ensures Budget(s', sid)
  {
    hide WinsOf, TimesParked, WinOk;
    OneMoreWin(s.wins, w, sid);
  }

  lemma SavingKeepsBudget(s: State, r: ParkRecord, sid: Sid)
    requires Budget(s, sid)
    ensures Budget(SaveRow(s, r), sid)
  {
    hide WinsOf, TimesParked;
    OneMoreSave(SavesOf(s, sid), r);
  }

  lemma BudgetStep(timeout: Time, s: State, e: Event, sid: Sid)
    requires Inv(s) && Enabled(timeout, s, e)
    ensures Budget(Next(timeout, s, e), sid)
  {
    assert Budget(s, sid);
    var s' := Next(timeout, s, e);
    hide WinsOf, TimesParked, WinOk, ActorOk, RowIsLast;
    if MayWin(e) {
      SwapStep(timeout, s, e);
      if w :| Takes(s, s', w) {
        assert RowIsLast(s, w.stored.sessionID);
        TakingKeepsBudget(s, s', w, sid);
      }
    } else if e.Save? {
      SavingKeepsBudget(s.(actors := s.actors - {e.actor}), s.actors[e.actor].record, sid);
    }
  }

  /** No step but a write of the session itself changes a row other than by clearing its key. */
  lemma RowStep(timeout: Time, s: State, e: Event, sid: Sid)
    requires Enabled(timeout, s, e) && RowIsLast(s, sid)
    ensures RowIsLast(Next(timeout, s, e), sid)
  {
  }

  /** What was written stays written. */
  lemma SavesGrow(timeout: Time, s: State, e: Event, sid: Sid)
    requires Enabled(timeout, s, e)
    ensures SavesOf(s, sid) <= SavesOf(Next(timeout, s, e), sid)
  {
  }

  lemma WrittenStays(timeout: Time, s: State, e: Event, r: ParkRecord, k: nat)
    requires Enabled(timeout, s, e) && Written(s, r, k)
    ensures Written(Next(timeout, s, e), r, k)
  {
    hide Next;
    SavesGrow(timeout, s, e, r.sessionID);
  }

  lemma ActorPersists(timeout: Time, s: State, e: Event, a: Actor)
    requires Enabled(timeout, s, e) && ActorOk(s, a)
    ensures ActorOk(Next(timeout, s, e), a)
  {
    hide Next, Written;
    var s' := Next(timeout, s, e);
    match a {
      case Writer(_) =>
      case Resolver(seen) => WrittenStays(timeout, s, e, seen.row, seen.version);
      case _ =>
        forall r | r in a.pending ensures Written(s', r.row, r.version) {
          WrittenStays(timeout, s, e, r.row, r.version);
        }
    }
  }

  lemma ActorStarts(timeout: Time, s: State, e: Event, t: nat)
    requires Inv(s) && Enabled(timeout, s, e) && t !in s.actors && t in Next(timeout, s, e).actors
    ensures ActorOk(s, Next(timeout, s, e).actors[t])
  {
    hide Written, Budget, WinOk;
    match e {
      case ResolveRead(_, _, _, sid) => ParkedRow(s, sid);
      case Scan(_, a) =>
        forall r | r in a.pending
          ensures Written(s, r.row, r.version) && r.row.workflow == a.workflow && r.row.updatedAt < a.cutoff
        {
          assert Selects(a, r.row);
          ParkedRow(s, r.row.sessionID);
        }
      case _ =>
    }
  }

  lemma ActorStep(timeout: Time, s: State, e: Event, t: nat)
    requires Inv(s) && Enabled(timeout, s, e) && t in Next(timeout, s, e).actors
    ensures ActorOk(Next(timeout, s, e), Next(timeout, s, e).actors[t])
  {
    var a := Next(timeout, s, e).actors[t];
    if t !in s.actors {
      ActorStarts(timeout, s, e, t);
    } else {
      assert ActorOk(s, s.actors[t]);
      if a != s.actors[t] {
        assert a == Rest(s.actors[t]);
        forall r | r in a.pending ensures r in s.actors[t].pending { }
      }
    }
    hide Next, Written;
    ActorPersists(timeout, s, e, a);
  }

  lemma WinPersists(timeout: Time, s: State, e: Event, w: Win)
    requires Enabled(timeout, s, e) && WinOk(s, w)
    ensures WinOk(Next(timeout, s, e), w)
  {
    hide Next, Written;
    match w {
      case ResolveWin(stored, returned, read, written) =>
        WrittenStays(timeout, s, e, stored, written);
        WrittenStays(timeout, s, e, returned.(prKey := stored.prKey), read);
      case SweepWin(stored, returned, _, _, read, written) =>
        WrittenStays(timeout, s, e, stored, written);
        WrittenStays(timeout, s, e, returned, read);
      case _ =>
    }
  }

  lemma WinStep(timeout: Time, s: State, e: Event, i: nat)
    requires Inv(s) && Enabled(timeout, s, e) && i < |Next(timeout, s, e).wins|
    ensures WinOk(Next(timeout, s, e), Next(timeout, s, e).wins[i])
  {
    var w := Next(timeout, s, e).wins[i];
    if MayWin(e) { SwapStep(timeout, s, e); }
    assert WinOk(s, w);
    hide Next, WinOk;
    WinPersists(timeout, s, e, w);
  }

  lemma InvStep(timeout: Time, s: State, e: Event)
    requires Inv(s) && Enabled(timeout, s, e)
    ensures Inv(Next(timeout, s, e))
  {
    hide Next, ActorOk, WinOk, Budget, RowIsLast;
    var s' := Next(timeout, s, e);
    forall sid ensures RowIsLast(s', sid) { RowStep(timeout, s, e, sid); }
    forall sid ensures Budget(s', sid) { BudgetStep(timeout, s, e, sid); }
    forall t | t in s'.actors ensures ActorOk(s', s'.actors[t]) { ActorStep(timeout, s, e, t); }
    forall i | 0 <= i < |s'.wins| ensures WinOk(s', s'.wins[i]) { WinStep(timeout, s, e, i); }
  }

  lemma {:induction false} InvRun(timeout: Time, states: seq<State>, events: seq<Event>, n: nat)
    requires IsRun(timeout, states, events) && n < |states|
    ensures Inv(states[n])
  {
    if n > 0 {
      InvRun(timeout, states, events, n - 1);
      InvStep(timeout, states[n-1], events[n-1]);
      hide Inv, Enabled, Next;
    }
  }

  /** Main result, for every interleaving of writers, resolvers, sweeps, deletes and crashes: a
      session is won no more often than it was parked. */
  lemma NeverWonMoreThanParked(timeout: Time, states: seq<State>, events: seq<Event>, sid: Sid)
    requires IsRun(timeout, states, events)
    ensures WinsOf(states[|events|].wins, sid) <= TimesParked(SavesOf(states[|events|], sid))
  {
    InvRun(timeout, states, events, |events|);
    assert Budget(states[|events|], sid);
  }

  /* What a claim hands back. */

  /** No session was written twice with the same record, keys aside. */
  ghost predicate WritesDiffer(s: State) {
    forall sid, i, j :: 0 <= i < j < |SavesOf(s, sid)| ==>
      Unpark(SavesOf(s, sid)[i]) != Unpark(SavesOf(s, sid)[j])
  }

  /** Main result: a resolve of the sqlite store takes the row of the session's last write and hands
      back the record of the write it had read. As long as no two writes of a session are alike, it
      hands back the row that it took exactly when the session was not written in between. */
  lemma ResolveWinsAreExactIfUnwritten(timeout: Time, states: seq<State>, events: seq<Event>, i: nat)
    requires IsRun(timeout, states, events)
    requires i < |states[|events|].wins| && states[|events|].wins[i].ResolveWin?
    ensures var s := states[|events|]; var w := s.wins[i]; var saves := SavesOf(s, w.stored.sessionID);
            && 1 <= w.read <= w.written <= |saves|
            && w.stored == saves[w.written-1] && w.returned == Unpark(saves[w.read-1])
            && (WritesDiffer(s) ==> (w.returned == Unpark(w.stored) <==> w.read == w.written))
  {
    InvRun(timeout, states, events, |events|);
    var s := states[|events|];
    assert WinOk(s, s.wins[i]);
    assert s.wins[i].returned == Unpark(s.wins[i].returned.(prKey := s.wins[i].stored.prKey));
    hide IsRun, Inv;
  }

  /** The same for a sweep of the sqlite store; it keeps the key that it read. */
  lemma SweepWinsAreExactIfUnwritten(timeout: Time, states: seq<State>, events: seq<Event>, i: nat)
    requires IsRun(timeout, states, events)
    requires i < |states[|events|].wins| && states[|events|].wins[i].SweepWin?
    ensures var s := states[|events|]; var w := s.wins[i]; var saves := SavesOf(s, w.stored.sessionID);
            && 1 <= w.read <= w.written <= |saves|
            && w.stored == saves[w.written-1] && w.returned == saves[w.read-1]
            && w.stored.prKey == w.returned.prKey != "" && w.stored.updatedAt < w.cutoff
            && w.returned.workflow == w.workflow
            && (WritesDiffer(s) ==> (w.returned == w.stored <==> w.read == w.written))
  {
    InvRun(timeout, states, events, |events|);
    var s := states[|events|];
    assert WinOk(s, s.wins[i]);
    hide IsRun, Inv;
  }

  /** The firestore store reads again inside the claiming transaction, and so is always exact. */
  lemma DocWinsAreExact(timeout: Time, states: seq<State>, events: seq<Event>, i: nat)
    requires IsRun(timeout, states, events) && i < |states[|events|].wins|
    ensures var w := states[|events|].wins[i];
            && (w.DocResolveWin? ==>
                  w.stored.workflow == w.workflow && w.stored.prKey == w.key != "" && w.returned == Unpark(w.stored))
            && (w.DocSweepWin? ==>
                  && w.stored.workflow == w.workflow && w.stored.prKey != ""
                  && ZERO_TIME != w.stored.updatedAt < w.cutoff && w.returned == w.stored)
  {
    InvRun(timeout, states, events, |events|);
    assert WinOk(states[|events|], states[|events|].wins[i]);
  }

  /* When a sweep of the sqlite store is exact. */

  /** Every write lands within CI_TIMEOUT of its stamp. */
  ghost predicate LandsInTime(timeout: Time, s: State, e: Event) {
    e.Save? && e.actor in s.actors && s.actors[e.actor].Writer? ==>
      s.now - timeout <= s.actors[e.actor].record.updatedAt
  }

  /** What ParkRecord.UpdatedAt relies on: nothing writes a session that is parked, and it is written
      by one writer at a time. */
  ghost predicate WritesTheClaimed(s: State, e: Event) {
    e.PutClear? ==>
      && !Parked(s.rows, e.record.sessionID)
      && forall t :: t in s.actors && s.actors[t].Writer? ==> s.actors[t].record.sessionID != e.record.sessionID
  }

  /** The session was not written since it was read, or its last write is fresh. */
  ghost predicate Covered(s: State, cutoff: Time, r: Reading) {
    var saves := SavesOf(s, r.row.sessionID);
    |saves| == r.version || (saves != [] && saves[|saves|-1].updatedAt >= cutoff)
  }

  /** Swept rows are covered, and what is about to be written over them is fresh. */
  ghost predicate ScansCovered(s: State) {
    && (forall t, r :: t in s.actors && s.actors[t].Sweeper? && r in s.actors[t].pending ==>
          Covered(s, s.actors[t].cutoff, r))
    && (forall i :: 0 <= i < |s.wins| && s.wins[i].SweepWin? ==> s.wins[i].read == s.wins[i].written)
  }

  ghost predicate WritesFresh(record: ParkRecord, a: Actor) {
    forall r :: a.Sweeper? && r in a.pending && r.row.sessionID == record.sessionID ==> record.updatedAt >= a.cutoff
  }

  /** A write that lands on a session some sweep still holds a row of is fresh for that sweep. */
  ghost predicate LandsFresh(s: State, e: Event) {
    e.Save? && e.actor in s.actors && s.actors[e.actor].Writer? ==>
      forall t :: t in s.actors ==> WritesFresh(s.actors[e.actor].record, s.actors[t])
  }

  lemma CoveredStep(timeout: Time, s: State, e: Event, t: nat, r: Reading)
    requires Enabled(timeout, s, e) && ScansCovered(s) && LandsFresh(s, e)
    requires t in Next(timeout, s, e).actors && Next(timeout, s, e).actors[t].Sweeper?
    requires r in Next(timeout, s, e).actors[t].pending
    ensures Covered(Next(timeout, s, e), Next(timeout, s, e).actors[t].cutoff, r)
  {
    var a := Next(timeout, s, e).actors[t];
    if t in s.actors {
      assert s.actors[t].Sweeper? && s.actors[t].cutoff == a.cutoff && r in s.actors[t].pending;
      assert Covered(s, a.cutoff, r);
    }
  }

  /** A swap that finds a covered row finds the very row that was read. */
  lemma SwapIsExact(timeout: Time, s: State, e: Event, i: nat)
    requires Inv(s) && Enabled(timeout, s, e) && ScansCovered(s)
    requires i < |Next(timeout, s, e).wins| && Next(timeout, s, e).wins[i].SweepWin?
    ensures Next(timeout, s, e).wins[i].read == Next(timeout, s, e).wins[i].written
  {
    if i >= |s.wins| {
      var seen := s.actors[e.actor].pending[0];
      assert seen in s.actors[e.actor].pending;
      assert Covered(s, s.actors[e.actor].cutoff, seen);
      ParkedRow(s, seen.row.sessionID);
    }
  }

  lemma ScansStep(timeout: Time, s: State, e: Event)
    requires Inv(s) && Enabled(timeout, s, e) && ScansCovered(s) && LandsFresh(s, e)
    ensures ScansCovered(Next(timeout, s, e))
  {
    hide Next, Inv, Covered;
    var s' := Next(timeout, s, e);
    forall t, r | t in s'.actors && s'.actors[t].Sweeper? && r in s'.actors[t].pending
      ensures Covered(s', s'.actors[t].cutoff, r)
    {
      CoveredStep(timeout, s, e, t, r);
    }
    forall i | 0 <= i < |s'.wins| && s'.wins[i].SweepWin? ensures s'.wins[i].read == s'.wins[i].written {
      SwapIsExact(timeout, s, e, i);
    }
  }

  lemma {:induction false} ScansRun(timeout: Time, states: seq<State>, events: seq<Event>, n: nat)
    requires IsRun(timeout, states, events) && n < |states|
    requires forall i :: 0 <= i < n ==> LandsFresh(states[i], events[i])
    ensures ScansCovered(states[n])
  {
    if n > 0 {
      ScansRun(timeout, states, events, n - 1);
      InvRun(timeout, states, events, n - 1);
      ScansStep(timeout, states[n-1], events[n-1]);
      hide Inv, Enabled, Next, ScansCovered, LandsFresh;
    }
  }

  ghost predicate CutoffsPast(timeout: Time, s: State) {
    forall t :: t in s.actors && Scans(s.actors[t]) ==> s.actors[t].cutoff <= s.now - timeout
  }

  lemma {:induction false} CutoffsPastRun(timeout: Time, states: seq<State>, events: seq<Event>, n: nat)
    requires IsRun(timeout, states, events) && n < |states|
    ensures CutoffsPast(timeout, states[n])
  {
    if n > 0 {
      CutoffsPastRun(timeout, states, events, n - 1);
      assert Enabled(timeout, states[n-1], events[n-1]);
    }
  }

  /** Writers work on sessions that are not parked, one each, and later than any scan of that session. */
  ghost predicate WriterAlone(s: State, t: nat) {
    t in s.actors && s.actors[t].Writer? ==>
      && !Parked(s.rows, s.actors[t].record.sessionID)
      && (forall u :: u in s.actors && s.actors[u].Writer? && u != t ==>
            s.actors[u].record.sessionID != s.actors[t].record.sessionID)
      && LandsFresh(s, Save(t))
  }

  /** A session that gets parked by a step is the one the step writes. */
  lemma OnlySavesPark(timeout: Time, s: State, e: Event, sid: Sid)
    requires Enabled(timeout, s, e) && Parked(Next(timeout, s, e).rows, sid) && !Parked(s.rows, sid)
    ensures e.Save? && s.actors[e.actor].record.sessionID == sid
  {
  }

  /** A scan that starts holds no row of a session that is not parked. */
  lemma ScanLater(timeout: Time, s: State, e: Event, t: nat, u: nat)
    requires Enabled(timeout, s, e) && timeout >= 0 && CutoffsPast(timeout, s)
    requires WriterAlone(s, t) && WritesTheClaimed(s, e)
    requires t in Next(timeout, s, e).actors && Next(timeout, s, e).actors[t].Writer?
    requires u in Next(timeout, s, e).actors
    ensures WritesFresh(Next(timeout, s, e).actors[t].record, Next(timeout, s, e).actors[u])
  {
    if t in s.actors && u in s.actors {
      assert WritesFresh(s.actors[t].record, s.actors[u]);
    }
  }

  lemma WritersStep(timeout: Time, s: State, e: Event, t: nat)
    requires Enabled(timeout, s, e) && timeout >= 0 && CutoffsPast(timeout, s)
    requires (forall u :: WriterAlone(s, u)) && WritesTheClaimed(s, e)
    ensures WriterAlone(Next(timeout, s, e), t)
  {
    var s' := Next(timeout, s, e);
    assert WriterAlone(s, t);
    if t in s'.actors && s'.actors[t].Writer? {
      forall u | u in s'.actors ensures WritesFresh(s'.actors[t].record, s'.actors[u]) {
        ScanLater(timeout, s, e, t, u);
      }
      if Parked(s'.rows, s'.actors[t].record.sessionID) && !Parked(s.rows, s'.actors[t].record.sessionID) {
        OnlySavesPark(timeout, s, e, s'.actors[t].record.sessionID);
      }
      hide WritesFresh, CutoffsPast;
    }
  }

  lemma {:induction false} WritersRun(timeout: Time, states: seq<State>, events: seq<Event>, n: nat)
    requires IsRun(timeout, states, events) && n < |states| && timeout >= 0
    requires forall i :: 0 <= i < n ==> WritesTheClaimed(states[i], events[i])
    ensures forall t :: WriterAlone(states[n], t)
  {
    if n > 0 {
      WritersRun(timeout, states, events, n - 1);
      CutoffsPastRun(timeout, states, events, n - 1);
      hide CutoffsPast, WriterAlone, WritesTheClaimed, Enabled, Next;
      forall t ensures WriterAlone(states[n], t) { WritersStep(timeout, states[n-1], events[n-1], t); }
    }
  }

  /** Main result: a sweep of the sqlite store hands back exactly the row that it takes, whatever ran
      between its scan and the swap, if every write lands within CI_TIMEOUT of its stamp... */
  lemma SweepWinsAreExact(timeout: Time, states: seq<State>, events: seq<Event>, i: nat)
    requires IsRun(timeout, states, events)
    requires forall k :: 0 <= k < |events| ==> LandsInTime(timeout, states[k], events[k])
    requires i < |states[|events|].wins| && states[|events|].wins[i].SweepWin?
    ensures var w := states[|events|].wins[i]; w.returned == w.stored && w.stored.updatedAt < w.cutoff
  {
    hide Next, Inv;
    forall k | 0 <= k < |events| ensures LandsFresh(states[k], events[k]) {
      CutoffsPastRun(timeout, states, events, k);
      assert LandsInTime(timeout, states[k], events[k]);
    }
    ScansRun(timeout, states, events, |events|);
    SweepWinsAreExactIfUnwritten(timeout, states, events, i);
  }

  /** ... and, however late the writes land, if only claimed sessions are written: a session that was
      claimed and parked again after the scan is left alone. */
  lemma SweepWinsAreExactIfClaimedFirst(timeout: Time, states: seq<State>, events: seq<Event>, i: nat)
    requires IsRun(timeout, states, events) && timeout >= 0
    requires forall k :: 0 <= k < |events| ==> WritesTheClaimed(states[k], events[k])
    requires i < |states[|events|].wins| && states[|events|].wins[i].SweepWin?
    ensures var w := states[|events|].wins[i]; w.returned == w.stored && w.stored.updatedAt < w.cutoff
  {
    hide Next, Inv;
    forall k | 0 <= k < |events| ensures LandsFresh(states[k], events[k]) {
      WritersRun(timeout, states, events, k);
      assert events[k].Save? ==> WriterAlone(states[k], events[k].actor);
    }
    ScansRun(timeout, states, events, |events|);
    SweepWinsAreExactIfUnwritten(timeout, states, events, i);
  }

  /* Runs in which a claim of the sqlite store hands back another record than it takes. */

  /** The same session, parked twice under one key. */
  predicate ParkedAgain(first: ParkRecord, again: ParkRecord) {
    && first.(callID := again.callID, attempts := again.attempts, params := again.params,
              updatedAt := again.updatedAt) == again
    && first.prKey != "" && ZERO_TIME < first.updatedAt <= again.updatedAt
  }

  ghost predicate Steps(timeout: Time, s: State, e: Event, s': State) {
    Enabled(timeout, s, e) && s' == Next(timeout, s, e)
  }

  /** A step that writes, if it writes, a claimed session and in time. */
  ghost predicate Leads(timeout: Time, s: State, e: Event, s': State) {
    Steps(timeout, s, e, s') && WritesTheClaimed(s, e) && LandsInTime(timeout, s, e)
  }

  ghost predicate Path(timeout: Time, states: seq<State>, events: seq<Event>) {
    |states| == |events| + 1 && forall i :: 0 <= i < |events| ==> Leads(timeout, states[i], events[i], states[i+1])
  }

  lemma PathsJoin(timeout: Time, states: seq<State>, events: seq<Event>, states': seq<State>, events': seq<Event>)
    requires Path(timeout, states, events) && Path(timeout, states', events') && states[|events|] == states'[0]
    ensures Path(timeout, states + states'[1..], events + events')
  {
    hide Leads;
    forall i | 0 <= i < |events + events'|
      ensures Leads(timeout, (states + states'[1..])[i], (events + events')[i], (states + states'[1..])[i+1])
    {
      if i >= |events| { assert Leads(timeout, states'[i-|events|], events'[i-|events|], states'[i-|events|+1]); }
    }
  }

  lemma PathIsRun(timeout: Time, states: seq<State>, events: seq<Event>)
    requires Path(timeout, states, events) && Init(states[0])
    ensures IsRun(timeout, states, events)
    ensures forall i :: 0 <= i < |events| ==>
              WritesTheClaimed(states[i], events[i]) && LandsInTime(timeout, states[i], events[i])
  {
    hide Enabled, Next, WritesTheClaimed, LandsInTime;
    forall i | 0 <= i < |events|
      ensures Enabled(timeout, states[i], events[i]) && states[i+1] == Next(timeout, states[i], events[i])
      ensures WritesTheClaimed(states[i], events[i]) && LandsInTime(timeout, states[i], events[i])
    {
      assert Leads(timeout, states[i], events[i], states[i+1]);
    }
  }

  /** The table when both resolvers have read the first park. */
  function BothHaveRead(first: ParkRecord): State {
    var seen := Resolver(Reading(first, 1));
    State(map[first.sessionID := first], map[2 := seen, 3 := seen], first.updatedAt,
          map[first.sessionID := [first]], [])
  }

  lemma BothRead(timeout: Time, first: ParkRecord) returns (states: seq<State>, events: seq<Event>)
    requires first.prKey != "" && ZERO_TIME < first.updatedAt && timeout >= 0
    ensures Path(timeout, states, events) && Init(states[0]) && states[|events|] == BothHaveRead(first)
  {
    var w, key, sid := first.workflow, first.prKey, first.sessionID;
    var s0 := State(map[], map[], first.updatedAt, map[], []);
    var s1 := s0.(actors := map[1 := Writer(first)]);
    var s4 := BothHaveRead(first);
    var s2 := s4.(actors := map[]);
    var s3 := s4.(actors := map[2 := Resolver(Reading(first, 1))]);
    assert SavesOf(s1, sid) + [first] == [first];
    assert Leads(timeout, s0, PutClear(1, first), s1);
    assert Leads(timeout, s1, Save(1), s2);
    assert Leads(timeout, s2, ResolveRead(2, w, key, sid), s3);
    assert Leads(timeout, s3, ResolveRead(3, w, key, sid), s4);
    hide Leads;
    states := [s0, s1, s2, s3, s4];
    events := [PutClear(1, first), Save(1), ResolveRead(2, w, key, sid), ResolveRead(3, w, key, sid)];
  }

  lemma FirstWins(timeout: Time, first: ParkRecord, now: Time) returns (states: seq<State>, events: seq<Event>)
    requires first.prKey != "" && now >= first.updatedAt
    ensures Path(timeout, states, events) && states[0] == BothHaveRead(first)
    ensures states[|events|] == State(map[first.sessionID := Unpark(first)], map[3 := Resolver(Reading(first, 1))],
                                      now, map[first.sessionID := [first]], [ResolveWin(first, Unpark(first), 1, 1)])
  {
    var s0 := BothHaveRead(first);
    var s1 := State(map[first.sessionID := Unpark(first)], map[3 := Resolver(Reading(first, 1))],
      first.updatedAt, map[first.sessionID := [first]], [ResolveWin(first, Unpark(first), 1, 1)]);
    assert Leads(timeout, s0, ResolveSwap(2), s1);
    assert Leads(timeout, s1, Tick(now), s1.(now := now));
    states, events := [s0, s1, s1.(now := now)], [ResolveSwap(2), Tick(now)];
  }

  lemma SecondWins(timeout: Time, first: ParkRecord, again: ParkRecord, s: State)
      returns (states: seq<State>, events: seq<Event>)
    requires ParkedAgain(first, again) && timeout >= 0
    requires s == State(map[first.sessionID := Unpark(first)], map[3 := Resolver(Reading(first, 1))],
                        again.updatedAt, map[first.sessionID := [first]], s.wins)
    ensures Path(timeout, states, events) && states[0] == s
    ensures states[|events|].wins == s.wins + [ResolveWin(again, Unpark(first), 1, 2)]
  {
    var sid := first.sessionID;
    var s1 := s.(actors := map[1 := Writer(again), 3 := Resolver(Reading(first, 1))]);
    var s2 := s.(rows := map[sid := again], saves := map[sid := [first, again]]);
    var s3 := s2.(rows := map[sid := Unpark(again)], actors := map[],
      wins := s.wins + [ResolveWin(again, Unpark(first), 1, 2)]);
    assert SavesOf(s1, sid) + [again] == [first, again];
    assert Leads(timeout, s, PutClear(1, again), s1);
    assert Leads(timeout, s1, Save(1), s2);
    assert Leads(timeout, s2, ResolveSwap(3), s3);
    hide Leads;
    states, events := [s, s1, s2, s3], [PutClear(1, again), Save(1), ResolveSwap(3)];
  }

  /** Whatever the two parks say: of two resolvers that read the first, one wins, the run goes on and
      parks again, and the other then wins the second park with the record of the first. Nothing is
      written while parked, and every write lands at once. */
  lemma ResolveMayReturnAStaleRecord(timeout: Time, first: ParkRecord, again: ParkRecord)
      returns (states: seq<State>, events: seq<Event>)
    requires ParkedAgain(first, again) && timeout >= 0
    ensures IsRun(timeout, states, events)
    ensures forall i :: 0 <= i < |events| ==>
              WritesTheClaimed(states[i], events[i]) && LandsInTime(timeout, states[i], events[i])
    ensures states[|events|].wins == [ResolveWin(first, Unpark(first), 1, 1), ResolveWin(again, Unpark(first), 1, 2)]
  {
    states, events := BothRead(timeout, first);
    var won, claim := FirstWins(timeout, first, again.updatedAt);
    PathsJoin(timeout, states, events, won, claim);
    var lost, park := SecondWins(timeout, first, again, won[|claim|]);
    PathsJoin(timeout, states + won[1..], events + claim, lost, park);
    states, events := states + won[1..] + lost[1..], events + claim + park;
    hide Leads;
    PathIsRun(timeout, states, events);
  }

  lemma RunGoesOn(timeout: Time, states: seq<State>, events: seq<Event>, e: Event, s: State)
    requires IsRun(timeout, states, events) && Steps(timeout, states[|events|], e, s)
    ensures IsRun(timeout, states + [s], events + [e])
  {
    hide Enabled, Next;
  }

  /** A scan that found the first park while a second record is on its way. */
  function ScannedInBetween(timeout: Time, first: ParkRecord, again: ParkRecord): State {
    var cutoff := first.updatedAt + 1;
    State(map[first.sessionID := first],
          map[1 := Writer(again), 2 := Sweeper(first.workflow, cutoff, [Reading(first, 1)])],
          cutoff + timeout, map[first.sessionID := [first]], [])
  }

  lemma TheSweepScans(timeout: Time, first: ParkRecord, again: ParkRecord)
      returns (states: seq<State>, events: seq<Event>)
    requires ParkedAgain(first, again) && first.updatedAt == again.updatedAt && timeout >= 0
    ensures IsRun(timeout, states, events) && states[|events|] == ScannedInBetween(timeout, first, again)
  {
    var s5 := ScannedInBetween(timeout, first, again);
    var s0 := State(map[], map[], first.updatedAt, map[], []);
    var s1 := s0.(actors := map[1 := Writer(first)]);
    var s2 := s1.(actors := map[], rows := s5.rows, saves := s5.saves);
    var s3 := s2.(actors := map[1 := Writer(again)]);
    var s4 := s3.(now := s5.now);
    assert SavesOf(s1, first.sessionID) + [first] == [first];
    assert Steps(timeout, s0, PutClear(1, first), s1);
    assert Steps(timeout, s1, Save(1), s2);
    assert Steps(timeout, s2, PutClear(1, again), s3);
    assert Steps(timeout, s3, Tick(s5.now), s4);
    assert Steps(timeout, s4, Scan(2, s5.actors[2]), s5);
    hide Enabled, Next;
    states := [s0, s1, s2, s3, s4, s5];
    events := [PutClear(1, first), Save(1), PutClear(1, again), Tick(s5.now), Scan(2, s5.actors[2])];
  }

  /** Without either hypothesis a sweep of the sqlite store need not be exact. Here a second record of
      the session is stamped while the first is still parked, and it lands after the scan, more than
      CI_TIMEOUT late: the sweep takes the second record and hands back the first. */
  lemma ALateWriteMakesTheSweepStale(timeout: Time, first: ParkRecord, again: ParkRecord)
      returns (states: seq<State>, events: seq<Event>)
    requires ParkedAgain(first, again) && first.updatedAt == again.updatedAt && timeout >= 0
    ensures IsRun(timeout, states, events)
    ensures states[|events|].wins == [SweepWin(again, first, first.workflow, first.updatedAt + 1, 1, 2)]
  {
    states, events := TheSweepScans(timeout, first, again);
    var s5, sid := states[|events|], first.sessionID;
    var s6 := s5.(actors := map[2 := s5.actors[2]], rows := map[sid := again], saves := map[sid := [first, again]]);
    var s7 := s6.(actors := map[2 := Rest(s5.actors[2])], rows := map[sid := Unpark(again)],
      wins := [SweepWin(again, first, first.workflow, first.updatedAt + 1, 1, 2)]);
    assert SavesOf(s5, sid) + [again] == [first, again];
    assert Steps(timeout, s5, Save(1), s6);
    assert Steps(timeout, s6, SweepSwap(2), s7);
    hide Steps, IsRun;
    RunGoesOn(timeout, states, events, Save(1), s6);
    states, events := states + [s6], events + [Save(1)];
    RunGoesOn(timeout, states, events, SweepSwap(2), s7);
    states, events := states + [s7], events + [SweepSwap(2)];
  }
}
