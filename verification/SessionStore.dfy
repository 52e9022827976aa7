/** Sessions kept as documents: the session with its own state, its events one by one, and the state
    of its application and its user, written in transactions. */
module SessionStores {
  import opened Wrappers
  import opened Base64
  import opened SessionStates

  type Id = seq<byte>

  // ---- Document names ----

  const UNIT_SEPARATOR: byte := 0x1f

  function Joined(parts: seq<Id>): seq<byte> {
    if parts == [] then [] else if |parts| == 1 then parts[0] else parts[0] + [UNIT_SEPARATOR] + Joined(parts[1..])
  }

  function EncodeKey(parts: seq<Id>): string { Encode(Joined(parts)) }

  lemma CutAtSeparator(a: Id, b: Id, c: Id, d: Id)
    requires a + [UNIT_SEPARATOR] + b == c + [UNIT_SEPARATOR] + d && UNIT_SEPARATOR !in a && UNIT_SEPARATOR !in c
    ensures a == c && b == d
  {
    var s, t := a + [UNIT_SEPARATOR] + b, c + [UNIT_SEPARATOR] + d;
    assert s[|a|] == UNIT_SEPARATOR && t[|c|] == UNIT_SEPARATOR;
    assert (forall i :: 0 <= i < |a| ==> s[i] == a[i]) && forall i :: 0 <= i < |c| ==> t[i] == c[i];
    assert |a| == |c|;
    assert a == s[..|a|] && c == t[..|c|] && b == s[|a|+1..] && d == t[|c|+1..];
  }

  lemma JoinedThree(app: Id, user: Id, sid: Id)
    ensures Joined([app, user, sid]) == app + [UNIT_SEPARATOR] + (user + [UNIT_SEPARATOR] + sid)
  {
    assert [app, user, sid][1..] == [user, sid] && [user, sid][1..] == [sid];
    assert Joined([user, sid]) == user + [UNIT_SEPARATOR] + Joined([sid]);
  }

  /** Sessions have documents of their own, if no application and no user has the separator in it. */
  lemma SessionsApart(app: Id, user: Id, sid: Id, app': Id, user': Id, sid': Id)
    requires UNIT_SEPARATOR !in app + user && UNIT_SEPARATOR !in app' + user'
    ensures EncodeKey([app, user, sid]) == EncodeKey([app', user', sid']) <==>
        app == app' && user == user' && sid == sid'
  {
    if EncodeKey([app, user, sid]) == EncodeKey([app', user', sid']) {
      EncodeInjective(Joined([app, user, sid]), Joined([app', user', sid']));
      JoinedThree(app, user, sid);
      JoinedThree(app', user', sid');
      hide Joined, EncodeKey;
      assert forall x :: x in app ==> x in app + user;
      assert forall x :: x in user ==> x in app + user;
      assert forall x :: x in app' ==> x in app' + user';
      assert forall x :: x in user' ==> x in app' + user';
      CutAtSeparator(app, user + [UNIT_SEPARATOR] + sid, app', user' + [UNIT_SEPARATOR] + sid');
      CutAtSeparator(user, sid, user', sid');
    }
  }

  /** With the separator in a name, two sessions share one document. */
  lemma SeparatorsCollide(a: Id, b: Id, c: Id, d: Id)
    ensures EncodeKey([a + [UNIT_SEPARATOR] + b, c, d]) == EncodeKey([a, b + [UNIT_SEPARATOR] + c, d])
    ensures EncodeKey([a, b, c + [UNIT_SEPARATOR] + d]) == EncodeKey([a, b + [UNIT_SEPARATOR] + c, d])
  {
    var u := [UNIT_SEPARATOR];
    JoinedThree(a + u + b, c, d);
    JoinedThree(a, b + u + c, d);
    JoinedThree(a, b, c + u + d);
    hide Joined;
    assert (a + u + b) + u + (c + u + d) == a + u + ((b + u + c) + u + d);
    assert (b + u + c) + u + d == b + u + (c + u + d);
  }

  function Separators(s: seq<byte>): nat { multiset(s)[UNIT_SEPARATOR] }

  lemma SeparatorsAdd(a: seq<byte>, b: seq<byte>)
    ensures Separators(a + b) == Separators(a) + Separators(b)
  {
    assert multiset(a + b) == multiset(a) + multiset(b);
  }

  lemma SeparatorsOfThree(app: Id, user: Id, sid: Id)
    ensures Separators(Joined([app, user, sid])) == 2 + Separators(app + user + sid)
  {
    var u := [UNIT_SEPARATOR];
    assert Separators(u) == 1;
    JoinedThree(app, user, sid);
    hide Joined, Separators;
    SeparatorsAdd(app + u, user + u + sid);
    SeparatorsAdd(user + u, sid);
    SeparatorsAdd(app, u);
    SeparatorsAdd(user, u);
    SeparatorsAdd(app + user, sid);
    SeparatorsAdd(app, user);
  }

  /** No other session has this session's document. */
  ghost predicate OwnDocument(app: Id, user: Id, sid: Id) {
    forall a, u, s :: EncodeKey([a, u, s]) == EncodeKey([app, user, sid]) ==> a == app && u == user && s == sid
  }

  lemma WithoutSeparatorOwn(app: Id, user: Id, sid: Id, a: Id, u: Id, s: Id)
    requires UNIT_SEPARATOR !in app + user + sid && EncodeKey([a, u, s]) == EncodeKey([app, user, sid])
    ensures a == app && u == user && s == sid
  {
    EncodeInjective(Joined([a, u, s]), Joined([app, user, sid]));
    SeparatorsOfThree(a, u, s);
    SeparatorsOfThree(app, user, sid);
    hide Joined, EncodeKey;
    assert forall x :: x in a + u ==> x in a + u + s;
    assert forall x :: x in app + user ==> x in app + user + sid;
    SessionsApart(app, user, sid, a, u, s);
  }

  lemma SplitAtSeparator(s: Id) returns (a: Id, b: Id)
    requires UNIT_SEPARATOR in s
    ensures s == a + [UNIT_SEPARATOR] + b && a != s && b != s
  {
    var i :| 0 <= i < |s| && s[i] == UNIT_SEPARATOR;
    a, b := s[..i], s[i+1..];
  }

  lemma WithSeparatorShared(app: Id, user: Id, sid: Id)
    requires UNIT_SEPARATOR in app + user + sid
    ensures !OwnDocument(app, user, sid)
  {
    hide EncodeKey;
    if UNIT_SEPARATOR in app {
      var a, b := SplitAtSeparator(app);
      SeparatorsCollide(a, b, user, sid);
    } else if UNIT_SEPARATOR in user {
      var a, b := SplitAtSeparator(user);
      SeparatorsCollide(app, a, b, sid);
    } else {
      var a, b := SplitAtSeparator(sid);
      SeparatorsCollide(app, user, a, b);
    }
  }

  /** Main result: a session has a document of its own, among all sessions of all users and
      applications, exactly when none of its three names has the separator in it. */
  lemma OwnDocumentExactly(app: Id, user: Id, sid: Id)
    ensures OwnDocument(app, user, sid) <==> UNIT_SEPARATOR !in app + user + sid
  {
    if UNIT_SEPARATOR in app + user + sid {
      WithSeparatorShared(app, user, sid);
    } else {
      forall a, u, s | EncodeKey([a, u, s]) == EncodeKey([app, user, sid]) ensures a == app && u == user && s == sid {
        WithoutSeparatorOwn(app, user, sid, a, u, s);
      }
    }
  }

  // ---- Documents and sessions ----

  datatype Event = Event(id: string, timestamp: int, partial: bool, delta: State)

  datatype SessionDoc = SessionDoc(app: Id, user: Id, sid: Id, state: State, nextSeq: nat, updated: int)

  /** The documents are numbered from 0 on, in the order of the events. */
  ghost predicate Numbered(docs: map<int, Event>, events: seq<Event>) {
    && (forall n :: n in docs <==> 0 <= n < |events|)
    && forall n :: n in docs ==> docs[n] == events[n]
  }

  lemma NoneNumbered()
    ensures Numbered(map[], [])
  {
  }

  lemma NumberOneMore(docs: map<int, Event>, events: seq<Event>, e: Event)
    requires Numbered(docs, events)
    ensures Numbered(docs[|events| := e], events + [e])
  {
  }

  /** The numbers of the documents, each once, ascending. */
  ghost predicate Ascending(docs: map<int, Event>, order: seq<int>) {
    && (forall i, j :: 0 <= i < j < |order| ==> order[i] < order[j])
    && forall n :: n in order <==> n in docs
  }

  /** The events in order of their numbers. */
  ghost predicate InOrder(docs: map<int, Event>, order: seq<int>, events: seq<Event>) {
    && Ascending(docs, order) && |order| == |events|
    && forall i :: 0 <= i < |order| ==> order[i] in docs && events[i] == docs[order[i]]
  }

  lemma {:induction false} OrderIsCounting(docs: map<int, Event>, order: seq<int>, loaded: seq<Event>,
      events: seq<Event>, i: nat)
    requires InOrder(docs, order, loaded) && Numbered(docs, events) && i < |order|
    ensures order[i] == i
    decreases i
  {
    if i > 0 {
      OrderIsCounting(docs, order, loaded, events, i - 1);
    }
    assert order[i] in order && i in docs;
    var m :| 0 <= m < |order| && order[m] == i;
    if m < i {
      OrderIsCounting(docs, order, loaded, events, m);
    }
  }

  lemma LoadsWhatWasAppended(docs: map<int, Event>, order: seq<int>, loaded: seq<Event>, events: seq<Event>)
    requires InOrder(docs, order, loaded) && Numbered(docs, events)
    ensures loaded == events
  {
    forall i | 0 <= i < |order| ensures order[i] == i && i < |events| {
      OrderIsCounting(docs, order, loaded, events, i);
      assert order[i] in order;
    }
    assert forall n :: n in order ==> 0 <= n < |order|;
    assert |order| !in order;
    assert |order| > 0 ==> order[|order| - 1] < |events|;
    forall i | 0 <= i < |order| ensures loaded[i] == events[i] {
      assert loaded[i] == docs[order[i]];
    }
  }

  /** What Firestore holds. */
  datatype Docs = Docs(sessions: map<string, SessionDoc>, events: map<string, map<int, Event>>,
                       app: map<string, State>, user: map<string, State>)

  /** A session in memory. */
  datatype View = View(app: Id, user: Id, sid: Id, state: State, events: seq<Event>)

  function Key(v: View): string { EncodeKey([v.app, v.user, v.sid]) }

  function Stored(docs: map<string, State>, id: string): State { if id in docs then docs[id] else map[] }

  function EventsAt(docs: Docs, id: string): map<int, Event> { if id in docs.events then docs.events[id] else map[] }

  /** No events without a session, and no scoped or temporary keys in a session's own state. */
  ghost predicate Tidy(docs: Docs) {
    && (forall id :: id !in docs.sessions ==> EventsAt(docs, id) == map[])
    && forall id :: id in docs.sessions ==> AllPlain(docs.sessions[id].state)
  }

  /** The session in memory is what a reload would give: its state is the merge of the three stored
      scopes, its events are the stored ones, numbered 0 up to the next number, and nothing temporary
      is in either. */
  ghost predicate Mirrors(docs: Docs, v: View) {
    && Key(v) in docs.sessions
    && var d := docs.sessions[Key(v)];
       && (d.app == v.app && d.user == v.user && d.sid == v.sid && d.nextSeq == |v.events|)
       && IsMerge(v.state, Stored(docs.app, EncodeKey([v.app])), Stored(docs.user, EncodeKey([v.app, v.user])), d.state)
       && NoTemp(v.state) && (forall e :: e in v.events ==> NoTemp(e.delta))
       && Numbered(EventsAt(docs, Key(v)), v.events)
  }

  // ---- The transactions ----

  /** A scope's document is written only if something changes in it. */
  function Put(docs: map<string, State>, id: string, delta: State): map<string, State> {
    if |delta| == 0 then docs else docs[id := Stored(docs, id) + delta]
  }

  lemma PutStores(docs: map<string, State>, id: string, delta: State, other: string)
    ensures Stored(Put(docs, id, delta), other) == if other == id then Stored(docs, id) + delta else Stored(docs, other)
  {
  }

  function Created(docs: Docs, v: View, da: State, du: State, ds: State, now: int): Docs {
    Docs(docs.sessions[Key(v) := SessionDoc(v.app, v.user, v.sid, ds, 0, now)], docs.events,
         Put(docs.app, EncodeKey([v.app]), da), Put(docs.user, EncodeKey([v.app, v.user]), du))
  }

  function Appended(docs: Docs, v: View, da: State, du: State, ds: State, stored: Event): Docs
    requires Key(v) in docs.sessions
  {
    var d := docs.sessions[Key(v)];
    Docs(docs.sessions[Key(v) := d.(state := d.state + ds, nextSeq := d.nextSeq + 1, updated := stored.timestamp)],
         docs.events[Key(v) := EventsAt(docs, Key(v))[d.nextSeq := stored]],
         Put(docs.app, EncodeKey([v.app]), da), Put(docs.user, EncodeKey([v.app, v.user]), du))
  }

  ghost predicate Extracted(delta: State, da: State, du: State, ds: State) {
    IsScope(da, delta, APP) && IsScope(du, delta, USER) && IsPart(ds, delta, Plain)
  }

  lemma CreatedMirrors(docs: Docs, v: View, delta: State, da: State, du: State, ds: State, now: int)
    requires Tidy(docs) && Key(v) !in docs.sessions && Extracted(delta, da, du, ds) && v.events == []
    requires IsMerge(v.state, Stored(docs.app, EncodeKey([v.app])) + da,
                     Stored(docs.user, EncodeKey([v.app, v.user])) + du, ds)
    ensures Tidy(Created(docs, v, da, du, ds, now)) && Mirrors(Created(docs, v, da, du, ds, now), v)
  {
    hide EncodeKey, IsMerge, Put, Stored, Numbered;
    NoneNumbered();
    PutStores(docs.app, EncodeKey([v.app]), da, EncodeKey([v.app]));
    PutStores(docs.user, EncodeKey([v.app, v.user]), du, EncodeKey([v.app, v.user]));
    assert AllPlain(ds);
    MergeHasNoTemp(v.state, Stored(docs.app, EncodeKey([v.app])) + da,
                   Stored(docs.user, EncodeKey([v.app, v.user])) + du, ds);
    hide AllPlain, NoTemp, Extracted;
  }

  lemma AppendedStaysTidy(docs: Docs, v: View, delta: State, da: State, du: State, ds: State, stored: Event)
    requires Tidy(docs) && Key(v) in docs.sessions && Extracted(delta, da, du, ds)
    ensures Tidy(Appended(docs, v, da, du, ds, stored))
  {
    assert AllPlain(docs.sessions[Key(v)].state + ds);
    hide EncodeKey, AllPlain, Extracted, Put;
  }

  lemma AppendedMirrors(docs: Docs, v: View, delta: State, da: State, du: State, ds: State, kept: State, stored: Event)
    requires Tidy(docs) && Mirrors(docs, v) && Extracted(delta, da, du, ds) && IsPart(kept, delta, Lasting)
    requires stored.delta == kept
    ensures Mirrors(Appended(docs, v, da, du, ds, stored), v.(state := v.state + kept, events := v.events + [stored]))
  {
    hide EncodeKey, IsMerge, Put, Stored, Numbered;
    NumberOneMore(EventsAt(docs, Key(v)), v.events, stored);
    var app, user, d := Stored(docs.app, EncodeKey([v.app])), Stored(docs.user, EncodeKey([v.app, v.user])),
        docs.sessions[Key(v)];
    PutStores(docs.app, EncodeKey([v.app]), da, EncodeKey([v.app]));
    PutStores(docs.user, EncodeKey([v.app, v.user]), du, EncodeKey([v.app, v.user]));
    MergeFollows(v.state, app, user, d.state, delta, da, du, ds, kept);
    MergeHasNoTemp(v.state + kept, app + da, user + du, d.state + ds);
    assert NoTemp(stored.delta);
    hide AllPlain, NoTemp, Extracted;
  }

  lemma AppendedKeeps(docs: Docs, v: View, delta: State, da: State, du: State, ds: State, kept: State, stored: Event)
    requires Tidy(docs) && Key(v) in docs.sessions && Extracted(delta, da, du, ds) && IsPart(kept, delta, Lasting)
    requires stored.delta == kept
    ensures var next := Appended(docs, v, da, du, ds, stored);
            && Tidy(next)
            && (Mirrors(docs, v) ==> Mirrors(next, v.(state := v.state + kept, events := v.events + [stored])))
  {
    hide Mirrors, Tidy, Extracted, IsPart, EncodeKey;
    AppendedStaysTidy(docs, v, delta, da, du, ds, stored);
    if Mirrors(docs, v) {
      AppendedMirrors(docs, v, delta, da, du, ds, kept, stored);
    }
  }

  /** What AppendEvent does: nothing, or the transaction and the same change in memory. */
  ghost predicate AppendStep(docs: Docs, v: View, e: Event, next: Docs, w: View) {
    || (next == docs && w == v)
    || (Key(v) in docs.sessions
        && exists da, du, ds, kept ::
             && Extracted(e.delta, da, du, ds) && IsPart(kept, e.delta, Lasting)
             && next == Appended(docs, v, da, du, ds, e.(delta := kept))
             && w == v.(state := v.state + kept, events := v.events + [e.(delta := kept)]))
  }

  lemma StepKeeps(docs: Docs, v: View, e: Event, next: Docs, w: View)
    requires AppendStep(docs, v, e, next, w) && Tidy(docs)
    ensures Tidy(next) && (Mirrors(docs, v) ==> Mirrors(next, w))
  {
    hide Mirrors, Tidy, Extracted, IsPart, EncodeKey, Appended;
    if !(next == docs && w == v) {
      var da, du, ds, kept :| && Extracted(e.delta, da, du, ds) && IsPart(kept, e.delta, Lasting)
        && next == Appended(docs, v, da, du, ds, e.(delta := kept))
        && w == v.(state := v.state + kept, events := v.events + [e.(delta := kept)]);
      AppendedKeeps(docs, v, e.delta, da, du, ds, kept, e.(delta := kept));
    }
  }

  /** What others do to other applications, users and sessions. */
  ghost predicate Elsewhere(docs: Docs, next: Docs, v: View) {
    && (Key(v) in docs.sessions ==> Key(v) in next.sessions && next.sessions[Key(v)] == docs.sessions[Key(v)])
    && EventsAt(next, Key(v)) == EventsAt(docs, Key(v))
    && Stored(next.app, EncodeKey([v.app])) == Stored(docs.app, EncodeKey([v.app]))
    && Stored(next.user, EncodeKey([v.app, v.user])) == Stored(docs.user, EncodeKey([v.app, v.user]))
    && Tidy(next)
  }

  lemma ElsewhereKeeps(docs: Docs, next: Docs, v: View)
    requires Elsewhere(docs, next, v) && Mirrors(docs, v)
    ensures Tidy(next) && Mirrors(next, v)
  {
    hide EncodeKey, Stored, EventsAt, IsMerge, Numbered;
  }

  ghost predicate RunStep(docs: Docs, v: View, e: Event, next: Docs, w: View) {
    AppendStep(docs, v, e, next, w) || (w == v && Elsewhere(docs, next, v))
  }

  /** Main result: from its creation on, through any appends, partial or failed ones too, and whatever is
      done for other applications and users meanwhile, a session in memory is what a reload gives. */
  lemma {:induction false} AlwaysMirrors(docs: seq<Docs>, views: seq<View>, es: seq<Event>, n: nat)
    requires |docs| == |views| == |es| + 1 && n < |docs|
    requires Tidy(docs[0]) && Mirrors(docs[0], views[0])
    requires forall i :: 0 <= i < |es| ==> RunStep(docs[i], views[i], es[i], docs[i+1], views[i+1])
    ensures Tidy(docs[n]) && Mirrors(docs[n], views[n])
    decreases n
  {
    hide Mirrors, Tidy, AppendStep, Elsewhere;
    if n > 0 {
      AlwaysMirrors(docs, views, es, n - 1);
      assert RunStep(docs[n-1], views[n-1], es[n-1], docs[n-1+1], views[n-1+1]);
      if AppendStep(docs[n-1], views[n-1], es[n-1], docs[n], views[n]) {
        StepKeeps(docs[n-1], views[n-1], es[n-1], docs[n], views[n]);
      } else {
        ElsewhereKeeps(docs[n-1], docs[n], views[n]);
      }
    }
  }

  // ---- The filters of a Get ----

  /** From event k on, there are no more than numRecent (if positive), and the first is not before the
      given time (if any). */
  predicate Allowed(events: seq<Event>, numRecent: int, after: Option<int>, k: int)
    requires 0 <= k <= |events|
  {
    && (numRecent > 0 ==> |events| - k <= numRecent)
    && (after.Some? && k < |events| ==> events[k].timestamp >= after.value)
  }

  /** The earliest such event. */
  ghost predicate KeptFrom(events: seq<Event>, numRecent: int, after: Option<int>, k: int) {
    && 0 <= k <= |events| && Allowed(events, numRecent, after, k)
    && forall j :: 0 <= j < k ==> !Allowed(events, numRecent, after, j)
  }

  /** The count cuts first, then the time; timestamps need not ascend. */
  method FilterEvents(events: seq<Event>, numRecent: int, after: Option<int>)
      returns (kept: seq<Event>, ghost from: int)
    ensures KeptFrom(events, numRecent, after, from) && kept == events[from..]
    ensures numRecent > 0 ==> |kept| <= numRecent
    ensures after.Some? && kept != [] ==> kept[0].timestamp >= after.value
    ensures forall j :: 0 <= j < from ==>
              (numRecent > 0 && |events| - j > numRecent) || (after.Some? && events[j].timestamp < after.value)
  {
    kept, from := events, 0;
    if numRecent > 0 && |events| - numRecent > 0 {
      from := |events| - numRecent;
      kept := events[|events| - numRecent..];
    }
    if after.Some? && |kept| > 0 {
      ghost var start := from;
      var keep := |kept|;
      for i := 0 to |kept|
        invariant keep == |kept| && forall j :: 0 <= j < i ==> kept[j].timestamp < after.value
      {
        if kept[i].timestamp >= after.value {
          keep := i;
          break;
        }
      }
      from := start + keep;
      forall j | start <= j < from ensures events[j].timestamp < after.value { assert kept[j - start] == events[j]; }
      kept := kept[keep..];
    }
  }

  lemma NoFilterKeepsAll(events: seq<Event>, numRecent: int, k: int)
    requires numRecent <= 0 && KeptFrom(events, numRecent, None, k)
    ensures k == 0 && events[k..] == events
  {
    assert Allowed(events, numRecent, None, 0);
  }

  // ---- The service ----

  class Session {
    const app: Id
    const user: Id
    const sid: Id
    var state: State
    var events: seq<Event>
    var updated: int

    constructor (app: Id, user: Id, sid: Id, state: State, events: seq<Event>, updated: int)
      ensures Now() == View(app, user, sid, state, events) && this.updated == updated
    {
      this.app, this.user, this.sid := app, user, sid;
      this.state, this.events, this.updated := state, events, updated;
    }

    function Now(): View
      reads this
    {
      View(app, user, sid, state, events)
    }
  }

  class Store {
    var sessions: map<string, SessionDoc>
    var events: map<string, map<int, Event>>
    var appState: map<string, State>
    var userState: map<string, State>

    constructor ()
      ensures Snapshot() == Docs(map[], map[], map[], map[])
    {
      sessions, events, appState, userState := map[], map[], map[], map[];
    }

    function Snapshot(): Docs
      reads this
    {
      Docs(sessions, events, appState, userState)
    }

    method MergeApp(app: Id, delta: State)
      modifies this`appState
      ensures appState == Put(old(appState), EncodeKey([app]), delta)
    {
      hide EncodeKey;
      if |delta| > 0 {
        appState := appState[EncodeKey([app]) := Stored(appState, EncodeKey([app])) + delta];
      }
    }

    method MergeUser(app: Id, user: Id, delta: State)
      modifies this`userState
      ensures userState == Put(old(userState), EncodeKey([app, user]), delta)
    {
      hide EncodeKey;
      if |delta| > 0 {
        userState := userState[EncodeKey([app, user]) := Stored(userState, EncodeKey([app, user])) + delta];
      }
    }

    /** The session's document with its next number and its state, and the event under that number. */
    method WriteEvent(id: string, delta: State, event: Event)
      requires id in sessions
      modifies this`sessions, this`events
      ensures var d := old(sessions)[id];
              && sessions == old(sessions)[id := d.(state := d.state + delta, nextSeq := d.nextSeq + 1,
                  updated := event.timestamp)]
              && events == old(events)[id := EventsAt(old(Snapshot()), id)[d.nextSeq := event]]
    {
      var d := sessions[id];
      var docs := if id in events then events[id] else map[];
      sessions := sessions[id := d.(state := d.state + delta, nextSeq := d.nextSeq + 1, updated := event.timestamp)];
      events := events[id := docs[d.nextSeq := event]];
    }

    /** One transaction: the session, and what its first state says about the application and the user.
        newId stands for the identifier that is made up when none is asked for. */
    method Create(app: Id, user: Id, asked: Id, newId: Id, initial: State, now: int, fails: bool)
        returns (r: Option<Session>)
      requires Tidy(Snapshot())
      modifies this
      ensures Tidy(Snapshot())
      ensures var sid := if asked == [] then newId else asked;
              && (r.None? <==> app == [] || user == [] || fails || EncodeKey([app, user, sid]) in old(sessions))
              && (r.Some? ==> fresh(r.value) && r.value.app == app && r.value.user == user && r.value.sid == sid)
      ensures r.None? ==> unchanged(this)
      ensures r.Some? ==> Mirrors(Snapshot(), r.value.Now()) && r.value.events == []
      ensures r.Some? ==> r.value.updated == now && sessions[Key(r.value.Now())].updated == now
      ensures r.Some? ==> exists da, du, ds ::
                && Extracted(initial, da, du, ds)
                && Snapshot() == Created(old(Snapshot()), r.value.Now(), da, du, ds, now)
    {
      hide EncodeKey, Tidy, Mirrors, IsMerge, IsScope, IsPart, Numbered;
      if app == [] || user == [] {
        return None;
      }
      var sid := if asked == [] then newId else asked;
      var da, du, ds := ExtractStateDeltas(initial);
      var id := EncodeKey([app, user, sid]);
      if fails || id in sessions {
        return None;
      }
      ghost var before := Snapshot();
      var nextApp, nextUser := Stored(appState, EncodeKey([app])) + da, Stored(userState, EncodeKey([app, user])) + du;
      sessions := sessions[id := SessionDoc(app, user, sid, ds, 0, now)];
      MergeApp(app, da);
      MergeUser(app, user, du);
      hide Put, Stored, EventsAt;
      var state := MergeStates(nextApp, nextUser, ds);
      var sess := new Session(app, user, sid, state, [], now);
      CreatedMirrors(before, sess.Now(), initial, da, du, ds, now);
      assert Snapshot() == Created(before, sess.Now(), da, du, ds, now);
      return Some(sess);
    }

    method WriteAll(sess: Session, da: State, du: State, ds: State, stored: Event)
      requires Key(sess.Now()) in sessions
      modifies this, sess
      ensures Snapshot() == Appended(old(Snapshot()), old(sess.Now()), da, du, ds, stored)
      ensures sess.Now() == old(sess.Now()).(state := old(sess.state) + stored.delta,
                                             events := old(sess.events) + [stored])
      ensures sess.updated == stored.timestamp
    {
      hide EncodeKey, Put, Stored, EventsAt;
      WriteEvent(EncodeKey([sess.app, sess.user, sess.sid]), ds, stored);
      MergeApp(sess.app, da);
      MergeUser(sess.app, sess.user, du);
      sess.state := sess.state + stored.delta;
      sess.events := sess.events + [stored];
      sess.updated := stored.timestamp;
    }

    /** One transaction: the next number, the event, and its change to the three scopes; then the same
        change to the session in memory. */
    method AppendEvent(sess: Session, event: Event, fails: bool) returns (ok: bool)
      requires Tidy(Snapshot())
      modifies this, sess
      ensures Tidy(Snapshot())
      ensures ok <==> event.partial || (!fails && Key(old(sess.Now())) in old(sessions))
      ensures !ok || event.partial ==> unchanged(this) && unchanged(sess)
      ensures old(Mirrors(Snapshot(), sess.Now())) ==> Mirrors(Snapshot(), sess.Now())
      ensures AppendStep(old(Snapshot()), old(sess.Now()), event, Snapshot(), sess.Now())
      ensures ok && !event.partial ==>
                && |sess.events| == old(|sess.events|) + 1
                && sess.updated == event.timestamp && sessions[Key(sess.Now())].updated == event.timestamp
                && var kept := sess.events[|sess.events|-1];
                   kept.id == event.id && kept.timestamp == event.timestamp && IsPart(kept.delta, event.delta, Lasting)
    {
      hide EncodeKey, Tidy, Mirrors, IsMerge, IsScope, IsPart, Numbered;
      if event.partial {
        return true;
      }
      var da, du, ds := ExtractStateDeltas(event.delta);
      var kept := TrimTempState(event.delta);
      var stored := event.(delta := kept);
      var id := EncodeKey([sess.app, sess.user, sess.sid]);
      if fails || id !in sessions {
        return false;
      }
      ghost var before, was := Snapshot(), sess.Now();
      AppendedKeeps(before, was, event.delta, da, du, ds, kept, stored);
      assert Extracted(event.delta, da, du, ds);
      hide Extracted, Appended;
      WriteAll(sess, da, du, ds, stored);
      return true;
    }

    /** order is the numbers of the event documents as the query gives them, ascending. */
    method LoadEvents(id: string, order: seq<int>) returns (loaded: seq<Event>)
      requires Ascending(EventsAt(Snapshot(), id), order)
      ensures InOrder(EventsAt(Snapshot(), id), order, loaded)
    {
      loaded := [];
      for i := 0 to |order|
        invariant |loaded| == i && forall j :: 0 <= j < i ==>
            order[j] in EventsAt(Snapshot(), id) && loaded[j] == EventsAt(Snapshot(), id)[order[j]]
      {
        assert order[i] in order;
        loaded := loaded + [events[id][order[i]]];
      }
    }

    /** A session read back is the session in memory, with the events that were asked for; with no
        filter, all of them. */
    method Get(app: Id, user: Id, sid: Id, order: seq<int>, numRecent: int, after: Option<int>, readFails: bool)
        returns (r: Option<Session>)
      requires Tidy(Snapshot()) && Ascending(EventsAt(Snapshot(), EncodeKey([app, user, sid])), order)
      ensures r.None? <==>
                app == [] || user == [] || sid == [] || readFails || EncodeKey([app, user, sid]) !in sessions
      ensures r.Some? ==> fresh(r.value) && r.value.updated == sessions[EncodeKey([app, user, sid])].updated
      ensures r.Some? ==> forall v :: Mirrors(Snapshot(), v) && v.app == app && v.user == user && v.sid == sid ==>
          exists k :: KeptFrom(v.events, numRecent, after, k) && r.value.Now() == v.(events := v.events[k..])
      ensures r.Some? && numRecent <= 0 && after.None? ==>
          forall v :: Mirrors(Snapshot(), v) && v.app == app && v.user == user && v.sid == sid ==> r.value.Now() == v
    {
      var id := EncodeKey([app, user, sid]);
      if app == [] || user == [] || sid == [] || readFails || id !in sessions {
        return None;
      }
      var d := sessions[id];
      var appScope, userScope := Stored(appState, EncodeKey([d.app])), Stored(userState, EncodeKey([d.app, d.user]));
      var state := MergeStates(appScope, userScope, d.state);
      var loaded := LoadEvents(id, order);
      var kept, k := FilterEvents(loaded, numRecent, after);
      var sess := new Session(d.app, d.user, d.sid, state, kept, d.updated);
      hide EncodeKey, IsMerge, InOrder, Numbered, KeptFrom;
      forall v | Mirrors(Snapshot(), v) && v.app == app && v.user == user && v.sid == sid
        ensures KeptFrom(v.events, numRecent, after, k) && sess.Now() == v.(events := v.events[k..])
        ensures v.events == loaded
      {
        MergeIsDetermined(state, v.state, appScope, userScope, d.state);
        LoadsWhatWasAppended(EventsAt(Snapshot(), id), order, loaded, v.events);
      }
      if numRecent <= 0 && after.None? { NoFilterKeepsAll(loaded, numRecent, k); }
      return Some(sess);
    }
  }
}
