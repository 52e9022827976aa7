/** The in-memory park store: a map of records and a resume index over it, both updated in place.
    Every method is proved to do to the records what the pr_key table does (ParkColumns), which
    holds because the index is always exactly the set of parked records. */
module MemoryParkStores {
  import opened Wrappers
  import opened ParkColumns

  datatype IndexKey = IndexKey(workflow: Workflow, prKey: string)

  function KeyOf(r: ParkRecord): IndexKey { IndexKey(r.workflow, r.prKey) }

  type Index = map<IndexKey, Sid>

  /** The index and the parked records are in bijection. */
  ghost predicate Indexed(rows: Rows, index: Index) {
    && WellKeyed(rows)
    && (forall k :: k in index ==> Parked(rows, index[k]) && KeyOf(rows[index[k]]) == k)
    && (forall s :: Parked(rows, s) ==> KeyOf(rows[s]) in index && index[KeyOf(rows[s])] == s)
  }

  /** The index after Put: the writer's old key, if it changed, goes; its new key points at it. */
  ghost function PutIndex(rows: Rows, index: Index, r: ParkRecord): Index {
    var s := r.sessionID;
    var dropped := if Parked(rows, s) && KeyOf(rows[s]) != KeyOf(r) then index - {KeyOf(rows[s])} else index;
    if r.prKey != "" then dropped[KeyOf(r) := s] else dropped
  }

  lemma PutKeepsIndexed(rows: Rows, index: Index, r: ParkRecord)
    requires Indexed(rows, index)
    ensures Indexed(PutRow(rows, r), PutIndex(rows, index, r))
  {
    var after, index' := PutRow(rows, r), PutIndex(rows, index, r);
    forall k | k in index'
      ensures Parked(after, index'[k]) && KeyOf(after[index'[k]]) == k
    {
      if k != KeyOf(r) {
        assert k in index && Parked(rows, index[k]) && KeyOf(rows[index[k]]) == k;
        assert index[k] != r.sessionID;
      }
    }
    forall t | Parked(after, t)
      ensures KeyOf(after[t]) in index' && index'[KeyOf(after[t])] == t
    {
      if t != r.sessionID {
        PutRowAt(rows, r, t);
        assert Parked(rows, t) && KeyOf(rows[t]) in index && index[KeyOf(rows[t])] == t;
        if Parked(rows, r.sessionID) {
          assert index[KeyOf(rows[r.sessionID])] == r.sessionID;
        }
      }
    }
    forall t | t in after ensures after[t].sessionID == t {
      if t != r.sessionID { PutRowAt(rows, r, t); }
    }
  }

  /** Only the indexed owner can hold the key, so unparking it is all that Put has to do. */
  lemma DisplaceOwner(rows: Rows, index: Index, r: ParkRecord)
    requires Indexed(rows, index)
    ensures var displaced :=
              if r.prKey != "" && KeyOf(r) in index && index[KeyOf(r)] != r.sessionID
              then ClaimRow(rows, index[KeyOf(r)])
              else rows;
            displaced[r.sessionID := r] == PutRow(rows, r)
  {
    forall s | s in rows && s != r.sessionID && r.prKey != "" && rows[s].workflow == r.workflow
        && rows[s].prKey == r.prKey
      ensures KeyOf(r) in index && index[KeyOf(r)] == s
    {
      assert Parked(rows, s);
    }
  }

  /** The sweep loop part-way: the sessions in `done` are claimed and listed, and every other stale
      session's key is still to be looked at. */
  ghost predicate SweepSoFar(before: Rows, now: Rows, keys: set<IndexKey>, todo: set<IndexKey>, done: set<Sid>,
                             out: seq<ParkRecord>, workflow: Workflow, cutoff: Time) {
    && WellKeyed(before)
    && todo <= keys
    && now == Unparked(before, done)
    && done <= StaleSids(before, workflow, cutoff)
    && (forall s :: s in StaleSids(before, workflow, cutoff) ==> s in done || KeyOf(before[s]) in todo)
    && Lists(out, before, done)
  }

  lemma SweepKey(before: Rows, now: Rows, index: Index, todo: set<IndexKey>, done: set<Sid>,
                 out: seq<ParkRecord>, workflow: Workflow, cutoff: Time, k: IndexKey)
    requires Indexed(now, index) && SweepSoFar(before, now, index.Keys, todo, done, out, workflow, cutoff) && k in todo
    ensures var sid := index[k];
            var r := now[sid];
            && before[sid] == r && KeyOf(r) == k
            && if k.workflow == workflow && r.updatedAt != ZERO_TIME && r.updatedAt < cutoff
               then SweepSoFar(before, ClaimRow(now, sid), (index - {k}).Keys, todo - {k}, done + {sid}, out + [r],
                   workflow, cutoff)
               else SweepSoFar(before, now, index.Keys, todo - {k}, done, out, workflow, cutoff)
  {
    var sid := index[k];
    assert Parked(now, sid) && KeyOf(now[sid]) == k;
    assert sid !in done;
    forall s | s in StaleSids(before, workflow, cutoff) && s !in done && KeyOf(before[s]) == k
      ensures s == sid
    {
      assert Parked(now, s);
    }
    if StaleParked(before[sid], workflow, cutoff) {
      ListOneMore(out, before, done, sid);
      assert ClaimRow(now, sid) == Unparked(before, done + {sid});
    }
  }

  lemma SweepDone(before: Rows, now: Rows, keys: set<IndexKey>, done: set<Sid>, out: seq<ParkRecord>,
      workflow: Workflow, cutoff: Time)
    requires SweepSoFar(before, now, keys, {}, done, out, workflow, cutoff)
    ensures now == SweptRows(before, workflow, cutoff)
    ensures (set i | 0 <= i < |out| :: out[i]) == SweptRecords(before, workflow, cutoff)
  {
    assert done == StaleSids(before, workflow, cutoff);
  }

  class MemoryParkStore {
    var bySession: map<Sid, ParkRecord>
    var index: map<IndexKey, Sid>

    ghost predicate Valid()
      reads this
    {
      Indexed(bySession, index)
    }

    /** What the bijection is for: one active session per (workflow, PR key). */
    lemma OneSessionPerKey()
      requires Valid()
      ensures KeysUnique(bySession)
      ensures forall w, key | key != "" :: Holders(bySession, w, key)
                == if IndexKey(w, key) in index then {index[IndexKey(w, key)]} else {}
    {
    }

    constructor ()
      ensures Valid() && bySession == map[] && index == map[]
    {
      bySession := map[];
      index := map[];
    }

    method Put(r: ParkRecord)
      requires Valid()
      modifies this
      ensures Valid()
      ensures bySession == PutRow(old(bySession), r)
    {
      DisplaceOwner(bySession, index, r);
      PutKeepsIndexed(bySession, index, r);
      if r.sessionID in bySession {
        var prev := bySession[r.sessionID];
        if prev.prKey != "" && KeyOf(prev) != KeyOf(r) {
          index := index - {KeyOf(prev)};
        }
      }
      if r.prKey != "" {
        if KeyOf(r) in index && index[KeyOf(r)] != r.sessionID {
          var owner := index[KeyOf(r)];
          if owner in bySession {
            bySession := bySession[owner := Unpark(bySession[owner])];
          }
        }
      }
      bySession := bySession[r.sessionID := r];
      if r.prKey != "" {
        index := index[KeyOf(r) := r.sessionID];
      }
    }

    method Get(sessionID: Sid) returns (r: Option<ParkRecord>)
      ensures r == if sessionID in bySession then Some(bySession[sessionID]) else None
    {
      r := if sessionID in bySession then Some(bySession[sessionID]) else None;
    }

    /** A claim wins exactly when some session is parked under the key, and then it is that one. */
    method ResolveByPRKey(workflow: Workflow, prKey: string) returns (r: Option<ParkRecord>)
      requires Valid()
      modifies this
      ensures Valid()
      ensures r.None? <==> prKey == "" || Holders(old(bySession), workflow, prKey) == {}
      ensures r.None? ==> bySession == old(bySession)
      ensures r.Some? ==>
        && Holders(old(bySession), workflow, prKey) == {r.value.sessionID}
        && r.value == Unpark(old(bySession)[r.value.sessionID])
        && bySession == ClaimRow(old(bySession), r.value.sessionID)
    {
      OneSessionPerKey();
      if prKey == "" {
        return None;
      }
      var k := IndexKey(workflow, prKey);
      if k !in index {
        return None;
      }
      var claimed := ClaimLocked(k, index[k]);
      r := Some(claimed);
    }

    /** Clears the index entry of a parked session and returns the record, now unparked. */
    method ClaimLocked(k: IndexKey, sid: Sid) returns (r: ParkRecord)
      requires Valid() && k in index && index[k] == sid
      modifies this
      ensures Valid()
      ensures bySession == ClaimRow(old(bySession), sid) && index == old(index) - {k}
      ensures r == bySession[sid]
    {
      index := index - {k};
      r := Unpark(bySession[sid]);
      bySession := bySession[sid := r];
    }

    /** Claims every stale run of the workflow and nothing else; the records returned still name
        their PR. The order in which the index is walked is left open, as a Go map range leaves it. */
    method Sweep(workflow: Workflow, cutoff: Time) returns (out: seq<ParkRecord>)
      requires Valid()
      modifies this
      ensures Valid()
      ensures bySession == SweptRows(old(bySession), workflow, cutoff)
      ensures (set i | 0 <= i < |out| :: out[i]) == SweptRecords(old(bySession), workflow, cutoff)
      ensures forall i, j :: 0 <= i < j < |out| ==> out[i].sessionID != out[j].sessionID
    {
      out := [];
      ghost var before := bySession;
      ghost var claimedSids: set<Sid> := {};
      var todo := index.Keys;
      while todo != {}
        invariant Valid()
        invariant SweepSoFar(before, bySession, index.Keys, todo, claimedSids, out, workflow, cutoff)
        decreases todo
      {
        var k :| k in todo;
        var sid := index[k];
        SweepKey(before, bySession, index, todo, claimedSids, out, workflow, cutoff, k);
        todo := todo - {k};
        if k.workflow == workflow {
          var r := bySession[sid];
          if r.updatedAt != ZERO_TIME && r.updatedAt < cutoff {
            var claimed := ClaimLocked(k, sid);
            out := out + [claimed.(prKey := k.prKey)];
            claimedSids := claimedSids + {sid};
          }
        }
      }
      SweepDone(before, bySession, index.Keys, claimedSids, out, workflow, cutoff);
    }

    method Delete(sessionID: Sid)
      requires Valid()
      modifies this
      ensures Valid()
      ensures bySession == old(bySession) - {sessionID}
    {
      if sessionID in bySession {
        var r := bySession[sessionID];
        if r.prKey != "" {
          if KeyOf(r) in index && index[KeyOf(r)] == sessionID {
            index := index - {KeyOf(r)};
          }
        }
      }
      bySession := bySession - {sessionID};
    }

    method SweepOrphans(workflow: Workflow, cutoff: Time) returns (out: seq<ParkRecord>)
      requires Valid()
      ensures (set i | 0 <= i < |out| :: out[i]) == OrphanRecords(bySession, workflow, cutoff)
      ensures forall i, j :: 0 <= i < j < |out| ==> out[i].sessionID != out[j].sessionID
    {
      out := [];
      var todo := bySession.Keys;
      while todo != {}
        invariant todo <= bySession.Keys
        invariant forall i :: 0 <= i < |out| ==>
          var s := out[i].sessionID;
          s in bySession && s !in todo && bySession[s] == out[i] && Orphaned(out[i], workflow, cutoff)
        invariant forall s :: s in bySession && s !in todo && Orphaned(bySession[s], workflow, cutoff) ==>
            bySession[s] in out
        invariant forall i, j :: 0 <= i < j < |out| ==> out[i].sessionID != out[j].sessionID
        decreases todo
      {
        var s :| s in todo;
        todo := todo - {s};
        var r := bySession[s];
        if r.workflow == workflow && r.prKey == "" && r.updatedAt != ZERO_TIME && r.updatedAt < cutoff {
          out := out + [r];
        }
      }
      forall i | 0 <= i < |out|
        ensures out[i] in OrphanRecords(bySession, workflow, cutoff)
      {
        assert out[i].sessionID in bySession;
      }
    }

    method ParkedCount(workflow: Workflow) returns (n: nat)
      requires Valid()
      ensures n == |ParkedSids(bySession, workflow)|
    {
      n := 0;
      var todo := index.Keys;
      ghost var counted: set<Sid> := {};
      while todo != {}
        invariant todo <= index.Keys
        invariant forall s :: s in counted <==>
            Parked(bySession, s) && bySession[s].workflow == workflow && KeyOf(bySession[s]) !in todo
        invariant n == |counted|
        decreases todo
      {
        var k :| k in todo;
        todo := todo - {k};
        if k.workflow == workflow {
          n := n + 1;
          counted := counted + {index[k]};
        }
      }
      assert counted == ParkedSids(bySession, workflow);
    }
  }
}
