/** Scoped session state: keys that belong to the application, to the user or to the session, and
    temporary ones that are never kept. */
module SessionStates {
  import opened Wrappers
  import opened Text

  type Value = string

  type State = map<string, Value>

  const APP := "app:"
  const USER := "user:"
  const TEMP := "temp:"

  predicate Lasting(k: string) { !HasPrefix(k, TEMP) }

  predicate Plain(k: string) { !HasPrefix(k, APP) && !HasPrefix(k, USER) && !HasPrefix(k, TEMP) }

  predicate AllPlain(m: State) { forall k :: k in m ==> Plain(k) }

  predicate NoTemp(m: State) { forall k :: k in m ==> Lasting(k) }

  function After(k: string, p: string): string
    requires HasPrefix(k, p)
  {
    k[|p|..]
  }

  lemma PrefixesExclude(k: string)
    ensures !(HasPrefix(k, APP) && HasPrefix(k, USER)) && !(HasPrefix(k, APP) && HasPrefix(k, TEMP))
    ensures !(HasPrefix(k, USER) && HasPrefix(k, TEMP))
  {
    assert APP[0] == 'a' && USER[0] == 'u' && TEMP[0] == 't';
    PrefixHead(k, APP);
    PrefixHead(k, USER);
    PrefixHead(k, TEMP);
  }

  lemma PrefixHead(k: string, p: string)
    requires p != ""
    ensures HasPrefix(k, p) ==> k != "" && k[0] == p[0]
  {
  }

  lemma PrefixSplits(p: string, s: string)
    ensures HasPrefix(p + s, p) && After(p + s, p) == s
  {
  }

  lemma PrefixJoins(k: string, p: string)
    requires HasPrefix(k, p)
    ensures p + After(k, p) == k
  {
  }

  // ---- What the helpers compute, key by key ----

  /** The keys of delta with the prefix, without it. */
  ghost predicate IsScope(m: State, delta: State, p: string) {
    forall s :: (s in m <==> p + s in delta) && (s in m ==> m[s] == delta[p + s])
  }

  /** The keys of delta that the predicate lets through. */
  ghost predicate IsPart(m: State, delta: State, keep: string -> bool) {
    forall k :: (k in m <==> k in delta && keep(k)) && (k in m ==> m[k] == delta[k])
  }

  /** What a caller sees under a key: the user's value, the application's or the session's. */
  function Seen(app: State, user: State, sess: State, k: string): (v: Option<Value>) {
    if HasPrefix(k, USER) && After(k, USER) in user then Some(user[After(k, USER)])
    else if HasPrefix(k, APP) && After(k, APP) in app then Some(app[After(k, APP)])
    else Lookup(sess, k)
  }

  function Lookup(m: State, k: string): Option<Value> { if k in m then Some(m[k]) else None }

  ghost predicate IsMerge(m: State, app: State, user: State, sess: State) {
    forall k :: Lookup(m, k) == Seen(app, user, sess, k)
  }

  // ---- The helpers ----

  method ExtractStateDeltas(delta: State) returns (app: State, user: State, sess: State)
    ensures IsScope(app, delta, APP) && IsScope(user, delta, USER) && IsPart(sess, delta, Plain)
  {
    app, user, sess := map[], map[], map[];
    var left := delta.Keys;
    while left != {}
      invariant left <= delta.Keys
      invariant forall s ::
          (s in app <==> APP + s in delta && APP + s !in left) && (s in app ==> app[s] == delta[APP + s])
      invariant forall s ::
          (s in user <==> USER + s in delta && USER + s !in left) && (s in user ==> user[s] == delta[USER + s])
      invariant forall k :: (k in sess <==> k in delta && k !in left && Plain(k)) && (k in sess ==> sess[k] == delta[k])
      decreases left
    {
      var k :| k in left;
      PrefixesExclude(k);
      forall s ensures (APP + s == k <==> HasPrefix(k, APP) && s == After(k, APP))
          && (USER + s == k <==> HasPrefix(k, USER) && s == After(k, USER)) {
        PrefixSplits(APP, s);
        PrefixSplits(USER, s);
      }
      if HasPrefix(k, APP) {
        app := app[After(k, APP) := delta[k]];
      } else if HasPrefix(k, USER) {
        user := user[After(k, USER) := delta[k]];
      } else if !HasPrefix(k, TEMP) {
        sess := sess[k := delta[k]];
      }
      left := left - {k};
    }
  }

  method TrimTempState(delta: State) returns (kept: State)
    ensures IsPart(kept, delta, Lasting)
  {
    if |delta| == 0 {
      return delta;
    }
    kept := map[];
    var left := delta.Keys;
    while left != {}
      invariant left <= delta.Keys
      invariant forall k ::
          (k in kept <==> k in delta && k !in left && !HasPrefix(k, TEMP)) && (k in kept ==> kept[k] == delta[k])
      decreases left
    {
      var k :| k in left;
      if !HasPrefix(k, TEMP) {
        kept := kept[k := delta[k]];
      }
      left := left - {k};
    }
  }

  /** A scope's keys put in under its prefix, over what is there. */
  method PutScope(under: State, m: State, p: string) returns (out: State)
    ensures forall k :: Lookup(out, k) == if HasPrefix(k, p) && After(k, p) in m then Some(m[After(k, p)])
        else Lookup(under, k)
  {
    out := under;
    var left := m.Keys;
    while left != {}
      invariant left <= m.Keys
      invariant forall k :: Lookup(out, k)
                  == if HasPrefix(k, p) && After(k, p) in m
                      && After(k, p) !in left then Some(m[After(k, p)]) else Lookup(under, k)
      decreases left
    {
      var s :| s in left;
      forall k ensures k == p + s <==> HasPrefix(k, p) && After(k, p) == s {
        PrefixSplits(p, s);
      }
      out := out[p + s := m[s]];
      left := left - {s};
    }
  }

  method MergeStates(app: State, user: State, sess: State) returns (out: State)
    ensures IsMerge(out, app, user, sess)
  {
    out := PutScope(sess, app, APP);
    out := PutScope(out, user, USER);
  }

  // ---- Applying a change to the scopes, and to what the caller sees ----

  lemma SeenAfter(app: State, user: State, sess: State, delta: State, da: State, du: State, ds: State, k: string)
    requires IsScope(da, delta, APP) && IsScope(du, delta, USER) && IsPart(ds, delta, Plain) && AllPlain(sess)
    ensures Seen(app + da, user + du, sess + ds, k)
         == if k in delta && !HasPrefix(k, TEMP) then Some(delta[k]) else Seen(app, user, sess, k)
  {
    PrefixesExclude(k);
    if HasPrefix(k, APP) {
      PrefixJoins(k, APP);
    } else if HasPrefix(k, USER) {
      PrefixJoins(k, USER);
    }
  }

  /** The caller's view follows the stored scopes: applying the kept part of a change to what was
      merged is merging what the change makes of the scopes. */
  lemma MergeFollows(seen: State, app: State, user: State, sess: State, delta: State,
                     da: State, du: State, ds: State, kept: State)
    requires IsMerge(seen, app, user, sess) && AllPlain(sess)
    requires IsScope(da, delta, APP) && IsScope(du, delta, USER) && IsPart(ds, delta, Plain)
    requires IsPart(kept, delta, Lasting)
    ensures IsMerge(seen + kept, app + da, user + du, sess + ds)
    ensures AllPlain(sess + ds)
  {
    forall k ensures Lookup(seen + kept, k) == Seen(app + da, user + du, sess + ds, k) {
      SeenAfter(app, user, sess, delta, da, du, ds, k);
      assert Lookup(seen, k) == Seen(app, user, sess, k);
    }
  }

  lemma MergeHasNoTemp(seen: State, app: State, user: State, sess: State)
    requires IsMerge(seen, app, user, sess) && AllPlain(sess)
    ensures NoTemp(seen)
  {
    forall k | k in seen ensures !HasPrefix(k, TEMP) {
      PrefixesExclude(k);
      assert Lookup(seen, k) == Seen(app, user, sess, k);
    }
  }

  lemma MergeIsDetermined(a: State, b: State, app: State, user: State, sess: State)
    requires IsMerge(a, app, user, sess) && IsMerge(b, app, user, sess)
    ensures a == b
  {
    forall k ensures Lookup(a, k) == Lookup(b, k) {
      assert Lookup(a, k) == Seen(app, user, sess, k);
    }
    assert forall k :: k in a <==> Lookup(a, k).Some?;
    assert forall k :: k in b <==> Lookup(b, k).Some?;
  }
}
