/** The Firestore park store, one call at a time: queries on the key alone, narrowed by workflow and age
    afterwards, and claims that are transactions and read the document again. Interleaved transactions
    are the subject of ClaimRaces. */
module FirestoreParkStores {
  import opened Wrappers
  import opened ParkColumns
  import opened SqliteParkStores

  /** The documents with this key, of every workflow. */
  function WithKey(docs: Rows, key: string): set<Sid> { set s | s in docs && docs[s].prKey == key }

  function ParkedDocs(docs: Rows): set<Sid> { set s | s in docs && docs[s].prKey != "" }

  /** Put part-way: of the sessions that hold the record's key, those still to come are as they were and
      the others have lost it. */
  ghost predicate PartlyCleared(before: Rows, now: Rows, r: ParkRecord, todo: set<Sid>) {
    && now.Keys == before.Keys
    && forall s :: s in before ==>
         now[s] == if s in todo then before[s] else ClearOthers(before, r)[s]
  }

  lemma NotYetCleared(docs: Rows, r: ParkRecord)
    ensures PartlyCleared(docs, docs, r, WithKey(docs, r.prKey))
    ensures r.prKey == "" ==> ClearOthers(docs, r) == docs
  {
  }

  lemma ClearOneMore(before: Rows, now: Rows, r: ParkRecord, todo: set<Sid>, s: Sid)
    requires PartlyCleared(before, now, r, todo) && s in todo && s in before && r.prKey != ""
        && before[s].prKey == r.prKey
    ensures now[s] == before[s]
    ensures var next := if s != r.sessionID && now[s].workflow == r.workflow then ClaimRow(now, s) else now;
            PartlyCleared(before, next, r, todo - {s})
  {
  }

  /** Clearing some keys keeps the rows in order. */
  lemma PartlyClearedIsValid(before: Rows, now: Rows, r: ParkRecord, todo: set<Sid>)
    requires PartlyCleared(before, now, r, todo) && WellKeyed(before) && KeysUnique(before)
    ensures WellKeyed(now) && KeysUnique(now)
  {
    forall s | Parked(now, s) ensures Parked(before, s) && now[s] == before[s] {
      assert s in before;
    }
  }

  lemma AllCleared(before: Rows, now: Rows, r: ParkRecord)
    requires PartlyCleared(before, now, r, {})
    ensures now == ClearOthers(before, r)
  {
  }

  lemma ClaimStaysValid(docs: Rows, s: Sid)
    requires WellKeyed(docs) && KeysUnique(docs) && s in docs
    ensures WellKeyed(ClaimRow(docs, s)) && KeysUnique(ClaimRow(docs, s))
  {
    assert forall t :: Parked(ClaimRow(docs, s), t) ==> Parked(docs, t) && ClaimRow(docs, s)[t] == docs[t];
  }

  /** How many of the workflow's parked documents are not among those to do. */
  function Counted(docs: Rows, workflow: Workflow, todo: set<Sid>): nat { |ParkedSids(docs, workflow) - todo| }

  lemma CountStarts(docs: Rows, workflow: Workflow)
    ensures Counted(docs, workflow, ParkedDocs(docs)) == 0
    ensures Counted(docs, workflow, {}) == |ParkedSids(docs, workflow)|
  {
    assert ParkedSids(docs, workflow) - ParkedDocs(docs) == {};
    assert ParkedSids(docs, workflow) - {} == ParkedSids(docs, workflow);
  }

  lemma CountOneMore(docs: Rows, workflow: Workflow, todo: set<Sid>, s: Sid)
    requires s in todo && todo <= ParkedDocs(docs)
    ensures s in docs
    ensures Counted(docs, workflow, todo - {s})
         == Counted(docs, workflow, todo) + if docs[s].workflow == workflow then 1 else 0
  {
    var counted := ParkedSids(docs, workflow) - todo;
    assert ParkedSids(docs, workflow) - (todo - {s}) == if docs[s].workflow == workflow then counted + {s} else counted;
  }

  class FirestoreParkStore {
    var docs: Rows

    ghost predicate Valid()
      reads this
    {
      WellKeyed(docs) && KeysUnique(docs)
    }

    constructor ()
      ensures Valid() && docs == map[]
    {
      docs := map[];
    }

    /** Clears the key's other holders of the workflow one by one, up to the first document that cannot
        be read, whichever its workflow, or not be updated. */
    method ClearHolders(r: ParkRecord, queryFails: bool, unreadable: set<Sid>, failing: set<Sid>)
        returns (ok: bool, ghost left: set<Sid>)
      requires r.prKey != ""
      modifies this
      ensures PartlyCleared(old(docs), docs, r, left) && (ok ==> left == {})
      ensures queryFails ==> docs == old(docs)
      ensures ok <==> !queryFails && WithKey(old(docs), r.prKey) * unreadable <= {r.sessionID}
                        && Holders(old(docs), r.workflow, r.prKey) * failing <= {r.sessionID}
    {
      ghost var before := docs;
      NotYetCleared(docs, r);
      var todo := WithKey(docs, r.prKey);
      if queryFails {
        return false, todo;
      }
      while todo != {}
        invariant PartlyCleared(before, docs, r, todo)
        invariant todo <= WithKey(before, r.prKey)
        invariant forall s :: s in WithKey(before, r.prKey) && s !in todo ==>
            s == r.sessionID || (s !in unreadable && (s in Holders(before, r.workflow, r.prKey) ==> s !in failing))
        decreases todo
      {
        var s :| s in todo;
        ClearOneMore(before, docs, r, todo, s);
        if s != r.sessionID {
          if s in unreadable {
            assert s in WithKey(before, r.prKey) * unreadable;
            return false, todo;
          }
          if docs[s].workflow == r.workflow {
            if s in failing {
              assert s in Holders(before, r.workflow, r.prKey) * failing;
              return false, todo;
            }
            docs := ClaimRow(docs, s);
          }
        }
        todo := todo - {s};
      }
      return true, {};
    }

    /** The holders first, then the document. A call that fails leaves some of them cleared. */
    method Put(r: ParkRecord, queryFails: bool, unreadable: set<Sid>, failing: set<Sid>, setFails: bool)
        returns (ok: bool)
      requires Valid()
      modifies this
      ensures Valid()
      ensures ok ==> docs == PutRow(old(docs), r)
      ensures !ok ==> exists todo :: PartlyCleared(old(docs), docs, r, todo)
      ensures r.prKey != "" && queryFails ==> docs == old(docs)
      ensures ok <==> !setFails && (r.prKey == "" ||
                        (!queryFails && WithKey(old(docs), r.prKey) * unreadable <= {r.sessionID}
                           && Holders(old(docs), r.workflow, r.prKey) * failing <= {r.sessionID}))
    {
      hide KeysUnique, WellKeyed, PartlyCleared, Holders, WithKey;
      ghost var before := docs;
      PutKeepsInvariants(before, r);
      NotYetCleared(docs, r);
      ok := true;
      ghost var left: set<Sid> := WithKey(docs, r.prKey);
      if r.prKey != "" {
        ok, left := ClearHolders(r, queryFails, unreadable, failing);
      }
      PartlyClearedIsValid(before, docs, r, left);
      if !ok || setFails {
        return false;
      }
      if r.prKey != "" {
        AllCleared(before, docs, r);
      }
      docs := docs[r.sessionID := r];
    }

    /** One transaction over the documents with the key, in no particular order. One that cannot be read
        makes it fail, if it comes up before the workflow's own. */
    method ResolveByPRKey(workflow: Workflow, prKey: string, unreadable: set<Sid>, fails: bool)
        returns (ok: bool, r: Option<ParkRecord>)
      requires Valid()
      modifies this
      ensures Valid()
      ensures ok ==> prKey == "" || (!fails && Holders(old(docs), workflow, prKey) * unreadable == {})
      ensures !ok ==> prKey != "" && (fails || WithKey(old(docs), prKey) * unreadable != {})
      ensures ok && prKey != "" && Holders(old(docs), workflow, prKey) == {} ==>
                WithKey(old(docs), prKey) * unreadable == {}
      ensures r.None? <==> !ok || prKey == "" || Holders(old(docs), workflow, prKey) == {}
      ensures r.None? ==> docs == old(docs)
      ensures r.Some? ==>
        && Holders(old(docs), workflow, prKey) == {r.value.sessionID}
        && r.value == Unpark(old(docs)[r.value.sessionID])
        && docs == ClaimRow(old(docs), r.value.sessionID)
    {
      if prKey == "" {
        return true, None;
      }
      if fails {
        return false, None;
      }
      var todo := WithKey(docs, prKey);
      while todo != {}
        invariant docs == old(docs)
        invariant todo <= WithKey(docs, prKey)
        invariant forall s :: s in WithKey(docs, prKey) && s !in todo ==>
            s !in unreadable && s !in Holders(docs, workflow, prKey)
        decreases todo
      {
        var s :| s in todo;
        if s in unreadable {
          assert s in WithKey(docs, prKey) * unreadable;
          return false, None;
        }
        if docs[s].workflow == workflow {
          assert forall t :: t in Holders(docs, workflow, prKey) ==> Parked(docs, t);
          assert Holders(docs, workflow, prKey) == {s};
          var claimed := ClaimDoc(s);
          return true, Some(claimed);
        }
        todo := todo - {s};
      }
      return true, None;
    }

    method ClaimDoc(s: Sid) returns (r: ParkRecord)
      requires Valid() && Parked(docs, s)
      modifies this
      ensures Valid()
      ensures docs == ClaimRow(old(docs), s) && r == docs[s]
    {
      ClaimStaysValid(docs, s);
      docs := ClaimRow(docs, s);
      r := docs[s];
    }

    /** Claims every stale document whose transaction works. What is claimed before or after a failing
        one is still returned, and the failure is reported. A scan that fails claims nothing, and it
        fails on any parked document that cannot be read, be it another workflow's. */
    method Sweep(workflow: Workflow, cutoff: Time, scanFails: bool, unreadable: set<Sid>, failing: set<Sid>)
        returns (out: seq<ParkRecord>, err: bool)
      requires Valid()
      modifies this
      ensures Valid()
      ensures scanFails || ParkedDocs(old(docs)) * unreadable != {} ==> err && out == [] && docs == old(docs)
      ensures !scanFails && ParkedDocs(old(docs)) * unreadable == {} ==>
        && docs == SweptExcept(old(docs), failing, workflow, cutoff)
        && Lists(out, old(docs), StaleSids(old(docs), workflow, cutoff) - failing)
        && (err <==> StaleSids(old(docs), workflow, cutoff) * failing != {})
    {
      ghost var before := docs;
      var ok, rest := Candidates(workflow, cutoff, scanFails, unreadable);
      if !ok {
        return [], true;
      }
      out, err := [], false;
      ghost var done: set<Sid>, failed: set<Sid> := {}, {};
      while rest != []
        invariant Valid()
        invariant SoFar(before, docs, rest, done, failed, failing, out, workflow, cutoff)
        invariant err <==> failed != {}
        decreases |rest|
      {
        var c := rest[0];
        RowSwept(before, docs, rest, done, failed, failing, out, workflow, cutoff);
        var claimed, rec := ClaimStaleBySession(workflow, c.sessionID, c.prKey, cutoff, c.sessionID in failing);
        if !claimed {
          err := true;
          failed := failed + {c.sessionID};
        } else if rec.Some? {
          out := out + [rec.value.(prKey := c.prKey)];
          done := done + {c.sessionID};
        }
        rest := rest[1..];
      }
      SweepDone(before, docs, done, failed, failing, out, workflow, cutoff);
    }

    /** The document is read again: of the workflow, with the key, stamped, and still stale. */
    method ClaimStaleBySession(workflow: Workflow, sid: Sid, prKey: string, cutoff: Time, fails: bool)
        returns (ok: bool, r: Option<ParkRecord>)
      requires Valid() && prKey != ""
      modifies this
      ensures Valid()
      ensures ok <==> !fails
      ensures r.Some? <==>
        ok && sid in old(docs) && StaleParked(old(docs)[sid], workflow, cutoff) && old(docs)[sid].prKey == prKey
      ensures r.None? ==> docs == old(docs)
      ensures r.Some? ==> docs == ClaimRow(old(docs), sid) && r.value == docs[sid]
    {
      if fails {
        return false, None;
      }
      if sid !in docs {
        return true, None;
      }
      var d := docs[sid];
      if d.workflow != workflow || d.prKey != prKey || d.updatedAt == ZERO_TIME || d.updatedAt >= cutoff {
        return true, None;
      }
      ClaimStaysValid(docs, sid);
      docs := ClaimRow(docs, sid);
      return true, Some(docs[sid]);
    }

    /** The sweep's query and its narrowing, in no particular order. */
    method Candidates(workflow: Workflow, cutoff: Time, scanFails: bool, unreadable: set<Sid>)
        returns (ok: bool, found: seq<ParkRecord>)
      requires Valid()
      ensures ok <==> !scanFails && ParkedDocs(docs) * unreadable == {}
      ensures ok ==> Scanned(docs, found, workflow, cutoff)
    {
      if scanFails {
        return false, [];
      }
      hide KeysUnique;
      found := [];
      var todo := ParkedDocs(docs);
      while todo != {}
        invariant todo <= ParkedDocs(docs) && (ParkedDocs(docs) - todo) * unreadable == {}
        invariant forall i :: 0 <= i < |found| ==>
          var s := found[i].sessionID;
          s in docs && s !in todo && docs[s] == found[i] && StaleParked(found[i], workflow, cutoff)
        invariant forall s :: s in docs && s !in todo && StaleParked(docs[s], workflow, cutoff) ==> docs[s] in found
        invariant forall i, j :: 0 <= i < j < |found| ==> found[i].sessionID != found[j].sessionID
        decreases todo
      {
        var s :| s in todo;
        todo := todo - {s};
        if s in unreadable {
          assert s in ParkedDocs(docs) * unreadable;
          return false, [];
        }
        var d := docs[s];
        if d.workflow == workflow && d.updatedAt != ZERO_TIME && d.updatedAt < cutoff {
          found := found + [d];
        }
      }
      assert ParkedDocs(docs) - todo == ParkedDocs(docs);
      return true, found;
    }

    method SweepOrphans(workflow: Workflow, cutoff: Time, scanFails: bool, unreadable: set<Sid>)
        returns (out: seq<ParkRecord>, err: bool)
      requires Valid()
      ensures err <==> scanFails || WithKey(docs, "") * unreadable != {}
      ensures err ==> out == []
      ensures !err ==> (set i | 0 <= i < |out| :: out[i]) == OrphanRecords(docs, workflow, cutoff)
      ensures forall i, j :: 0 <= i < j < |out| ==> out[i].sessionID != out[j].sessionID
    {
      if scanFails {
        return [], true;
      }
      out, err := [], false;
      var todo := WithKey(docs, "");
      while todo != {}
        invariant todo <= WithKey(docs, "") && (WithKey(docs, "") - todo) * unreadable == {}
        invariant forall i :: 0 <= i < |out| ==>
          var s := out[i].sessionID; s in docs && s !in todo && docs[s] == out[i] && Orphaned(out[i], workflow, cutoff)
        invariant forall s :: s in docs && s !in todo && Orphaned(docs[s], workflow, cutoff) ==> docs[s] in out
        invariant forall i, j :: 0 <= i < j < |out| ==> out[i].sessionID != out[j].sessionID
        decreases todo
      {
        var s :| s in todo;
        todo := todo - {s};
        if s in unreadable {
          assert s in WithKey(docs, "") * unreadable;
          return [], true;
        }
        var d := docs[s];
        if d.workflow == workflow && d.updatedAt != ZERO_TIME && d.updatedAt < cutoff {
          out := out + [d];
        }
      }
      assert WithKey(docs, "") - todo == WithKey(docs, "");
      forall i | 0 <= i < |out|
        ensures out[i] in OrphanRecords(docs, workflow, cutoff)
      {
        assert out[i].sessionID in docs;
      }
    }

    method ParkedCount(workflow: Workflow, scanFails: bool, unreadable: set<Sid>) returns (n: nat, err: bool)
      requires Valid()
      ensures err <==> scanFails || ParkedDocs(docs) * unreadable != {}
      ensures n == if err then 0 else |ParkedSids(docs, workflow)|
    {
      if scanFails {
        return 0, true;
      }
      n, err := 0, false;
      var todo := ParkedDocs(docs);
      hide ParkedDocs, ParkedSids, Counted;
      CountStarts(docs, workflow);
      while todo != {}
        invariant todo <= ParkedDocs(docs) && (ParkedDocs(docs) - todo) * unreadable == {}
        invariant n == Counted(docs, workflow, todo)
        decreases todo
      {
        var s :| s in todo;
        CountOneMore(docs, workflow, todo, s);
        todo := todo - {s};
        if s in unreadable {
          assert s in ParkedDocs(docs) * unreadable;
          return 0, true;
        }
        if docs[s].workflow == workflow {
          n := n + 1;
        }
      }
      assert ParkedDocs(docs) - todo == ParkedDocs(docs);
    }
  }
}
