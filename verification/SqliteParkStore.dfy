/** The sqlite park store, one call at a time: the statements of a call run back to back, and each
    update may fail without effect. Interleaved calls are the subject of ClaimRaces. */
module SqliteParkStores {
  import opened Wrappers
  import opened ParkColumns

  /** The rows of a list, and only those, that the workflow's sweep selects. */
  ghost predicate Scanned(rows: Rows, found: seq<ParkRecord>, workflow: Workflow, cutoff: Time) {
    && (forall i :: 0 <= i < |found| ==>
        found[i].sessionID in rows && rows[found[i].sessionID] == found[i] && StaleParked(found[i], workflow, cutoff))
    && (forall s :: s in StaleSids(rows, workflow, cutoff) ==> rows[s] in found)
    && (forall i, j :: 0 <= i < j < |found| ==> found[i].sessionID != found[j].sessionID)
  }

  /** Claims of the stale rows that did not fail. */
  function SweptExcept(rows: Rows, failing: set<Sid>, workflow: Workflow, cutoff: Time): Rows {
    map s | s in rows :: if StaleParked(rows[s], workflow, cutoff) && s !in failing then Unpark(rows[s]) else rows[s]
  }

  /** The sweep loop with the rows `rest` to go: the sessions in `done` are claimed and listed, those
      in `failed` are not and their updates failed. */
  ghost predicate SoFar(before: Rows, now: Rows, rest: seq<ParkRecord>, done: set<Sid>, failed: set<Sid>,
      failing: set<Sid>,
                        out: seq<ParkRecord>, workflow: Workflow, cutoff: Time) {
    && WellKeyed(before)
    && now == Unparked(before, done) && Lists(out, before, done)
    && done <= StaleSids(before, workflow, cutoff) - failing
    && failed <= StaleSids(before, workflow, cutoff) * failing
    && (forall s :: s in StaleSids(before, workflow, cutoff) ==> s in done || s in failed || before[s] in rest)
    && (forall i :: 0 <= i < |rest| ==> rest[i].sessionID in before && before[rest[i].sessionID] == rest[i]
                                        && StaleParked(rest[i], workflow, cutoff) && rest[i].sessionID !in done)
    && (forall i, j :: 0 <= i < j < |rest| ==> rest[i].sessionID != rest[j].sessionID)
  }

  lemma RowSwept(before: Rows, now: Rows, rest: seq<ParkRecord>, done: set<Sid>, failed: set<Sid>, failing: set<Sid>,
                 out: seq<ParkRecord>, workflow: Workflow, cutoff: Time)
    requires rest != [] && SoFar(before, now, rest, done, failed, failing, out, workflow, cutoff)
    ensures var s := rest[0].sessionID;
            && s in now && now[s] == rest[0]
            && if s in failing then SoFar(before, now, rest[1..], done, failed + {s}, failing, out, workflow, cutoff)
               else SoFar(before, ClaimRow(now, s), rest[1..], done + {s}, failed, failing, out + [rest[0]], workflow,
                   cutoff)
  {
    var s := rest[0].sessionID;
    ListOneMore(out, before, done, s);
    assert rest == [rest[0]] + rest[1..];
    if s !in failing {
      assert ClaimRow(now, s) == Unparked(before, done + {s});
    }
  }

  lemma SweepDone(before: Rows, now: Rows, done: set<Sid>, failed: set<Sid>, failing: set<Sid>,
                  out: seq<ParkRecord>, workflow: Workflow, cutoff: Time)
    requires SoFar(before, now, [], done, failed, failing, out, workflow, cutoff)
    ensures now == SweptExcept(before, failing, workflow, cutoff)
    ensures Lists(out, before, StaleSids(before, workflow, cutoff) - failing)
    ensures failed == StaleSids(before, workflow, cutoff) * failing
  {
    assert done == StaleSids(before, workflow, cutoff) - failing;
  }

  class SqliteParkStore {
    var rows: Rows

    ghost predicate Valid()
      reads this
    {
      WellKeyed(rows) && KeysUnique(rows) && forall s :: s in rows ==> rows[s].updatedAt != ZERO_TIME
    }

    /** Clear the key's other holders, then save. If the first statement fails, nothing has changed; if
        only the second fails, the other holders stay cleared: the two are not one transaction. */
    method Put(r: ParkRecord, clearFails: bool, saveFails: bool) returns (ok: bool)
      requires Valid() && r.updatedAt != ZERO_TIME
      modifies this
      ensures Valid()
      ensures ok <==> !saveFails && (r.prKey == "" || !clearFails)
      ensures ok ==> rows == PutRow(old(rows), r)
      ensures !ok ==> rows == if r.prKey == "" || clearFails then old(rows) else ClearOthers(old(rows), r)
    {
      PutKeepsInvariants(rows, r);
      ClearKeepsInvariants(rows, r);
      if r.prKey != "" {
        if clearFails {
          return false;
        }
        rows := ClearOthers(rows, r);
      }
      if saveFails {
        return false;
      }
      assert r.prKey == "" ==> ClearOthers(rows, r) == rows;
      rows := rows[r.sessionID := r];
      return true;
    }

    lemma ClearKeepsInvariants(rows: Rows, r: ParkRecord)
      requires WellKeyed(rows) && KeysUnique(rows)
      ensures WellKeyed(ClearOthers(rows, r)) && KeysUnique(ClearOthers(rows, r))
    {
      var after := ClearOthers(rows, r);
      forall s, t | Parked(after, s) && Parked(after, t) && after[s].workflow == after[t].workflow
          && after[s].prKey == after[t].prKey
        ensures s == t
      {
        assert Parked(rows, s) && Parked(rows, t);
      }
    }

    /** A read and a claim, either of which may fail; without a key nothing is read, and without a
        holder nothing is claimed. */
    method ResolveByPRKey(workflow: Workflow, prKey: string, readFails: bool, claimFails: bool)
        returns (ok: bool, r: Option<ParkRecord>)
      requires Valid()
      modifies this
      ensures Valid()
      ensures ok <==>
        prKey == "" || (!readFails && (claimFails ==> Holders(old(rows), workflow, prKey) == {}))
      ensures r.None? <==> !ok || prKey == "" || Holders(old(rows), workflow, prKey) == {}
      ensures r.None? ==> rows == old(rows)
      ensures r.Some? ==>
        && Holders(old(rows), workflow, prKey) == {r.value.sessionID}
        && r.value == Unpark(old(rows)[r.value.sessionID])
        && rows == ClaimRow(old(rows), r.value.sessionID)
    {
      if prKey == "" {
        return true, None;
      }
      if readFails {
        return false, None;
      }
      var holders := Holders(rows, workflow, prKey);
      if holders == {} {
        return true, None;
      }
      var sid :| sid in holders;
      assert forall s :: s in holders ==> Parked(rows, s);
      var row := rows[sid];
      ok, r := Claim(row, claimFails);
    }

    /** UPDATE ... SET pr_key = '' WHERE session_id = ? AND pr_key = ?; no row affected means no win. */
    method Claim(row: ParkRecord, fails: bool) returns (ok: bool, r: Option<ParkRecord>)
      requires Valid() && row.prKey != ""
      modifies this
      ensures Valid()
      ensures ok <==> !fails
      ensures r.Some? <==> ok && row.sessionID in old(rows) && old(rows)[row.sessionID].prKey == row.prKey
      ensures r.None? ==> rows == old(rows)
      ensures r.Some? ==> rows == ClaimRow(old(rows), row.sessionID) && r.value == Unpark(row)
    {
      if fails {
        return false, None;
      }
      ClaimKeepsInvariants(rows, row.sessionID);
      if row.sessionID !in rows || rows[row.sessionID].prKey != row.prKey {
        return true, None;
      }
      rows := ClaimRow(rows, row.sessionID);
      return true, Some(Unpark(row));
    }

    lemma ClaimKeepsInvariants(rows: Rows, s: Sid)
      requires WellKeyed(rows) && KeysUnique(rows)
      ensures s in rows ==> WellKeyed(ClaimRow(rows, s)) && KeysUnique(ClaimRow(rows, s))
    {
      if s in rows {
        assert forall t :: Parked(ClaimRow(rows, s), t) ==> Parked(rows, t) && ClaimRow(rows, s)[t] == rows[t];
      }
    }

    /** Claims every selected row whose update works. Rows claimed before or after a failing one are
        still returned, and the failure is reported. If the scan fails, nothing is claimed. */
    method Sweep(workflow: Workflow, cutoff: Time, scanFails: bool, failing: set<Sid>)
        returns (out: seq<ParkRecord>, err: bool)
      requires Valid()
      modifies this
      ensures Valid()
      ensures scanFails ==> err && out == [] && rows == old(rows)
      ensures !scanFails ==>
        && rows == SweptExcept(old(rows), failing, workflow, cutoff)
        && Lists(out, old(rows), StaleSids(old(rows), workflow, cutoff) - failing)
        && (err <==> StaleSids(old(rows), workflow, cutoff) * failing != {})
    {
      if scanFails {
        return [], true;
      }
      ghost var before := rows;
      var rest := Select(workflow, cutoff);
      out, err := [], false;
      ghost var done: set<Sid>, failed: set<Sid> := {}, {};
      while rest != []
        invariant Valid()
        invariant SoFar(before, rows, rest, done, failed, failing, out, workflow, cutoff)
        invariant err <==> failed != {}
        decreases |rest|
      {
        var row := rest[0];
        RowSwept(before, rows, rest, done, failed, failing, out, workflow, cutoff);
        var ok, rec := ClaimStale(row, cutoff, row.sessionID in failing);
        if !ok {
          err := true;
          failed := failed + {row.sessionID};
        } else if rec.Some? {
          out := out + [rec.value.(prKey := row.prKey)];
          done := done + {row.sessionID};
        }
        rest := rest[1..];
      }
      SweepDone(before, rows, done, failed, failing, out, workflow, cutoff);
    }

    /** Like Claim, and the row must still be older than the cutoff. */
    method ClaimStale(row: ParkRecord, cutoff: Time, fails: bool) returns (ok: bool, r: Option<ParkRecord>)
      requires Valid() && row.prKey != ""
      modifies this
      ensures Valid()
      ensures ok <==> !fails
      ensures r.Some? <==>
        && ok && row.sessionID in old(rows) && old(rows)[row.sessionID].prKey == row.prKey
        && old(rows)[row.sessionID].updatedAt < cutoff
      ensures r.None? ==> rows == old(rows)
      ensures r.Some? ==> rows == ClaimRow(old(rows), row.sessionID) && r.value == Unpark(row)
    {
      if fails {
        return false, None;
      }
      ClaimKeepsInvariants(rows, row.sessionID);
      if row.sessionID !in rows || rows[row.sessionID].prKey != row.prKey || rows[row.sessionID].updatedAt >= cutoff {
        return true, None;
      }
      rows := ClaimRow(rows, row.sessionID);
      return true, Some(Unpark(row));
    }

    /** The sweep's query, in no particular order. */
    method Select(workflow: Workflow, cutoff: Time) returns (found: seq<ParkRecord>)
      requires Valid()
      ensures Scanned(rows, found, workflow, cutoff)
    {
      found := [];
      var todo := rows.Keys;
      while todo != {}
        invariant todo <= rows.Keys
        invariant forall i :: 0 <= i < |found| ==>
          var s := found[i].sessionID;
          s in rows && s !in todo && rows[s] == found[i] && StaleParked(found[i], workflow, cutoff)
        invariant forall s :: s in rows && s !in todo && StaleParked(rows[s], workflow, cutoff) ==> rows[s] in found
        invariant forall i, j :: 0 <= i < j < |found| ==> found[i].sessionID != found[j].sessionID
        decreases todo
      {
        var s :| s in todo;
        todo := todo - {s};
        var r := rows[s];
        if r.workflow == workflow && r.prKey != "" && r.updatedAt < cutoff {
          found := found + [r];
        }
      }
    }
  }
}
