/** The bounded cache of distilled rule sets: a map to list elements and a list in order of use, kept
    in step by get and put. */
module StandardsCaches {
  import opened Wrappers

  // ---- The line: keys with their values, most recently used first ----

  /** The distilled rules of a repository's standards documents; None is the nil that is kept for
      documents that yielded nothing. */
  type Rules = Option<seq<string>>

  type Line = seq<(string, Rules)>

  function Find(line: Line, key: string): (i: nat)
    ensures i <= |line|
    ensures i < |line| ==> line[i].0 == key
    ensures forall j :: 0 <= j < i ==> line[j].0 != key
  {
    if line == [] || line[0].0 == key then 0 else 1 + Find(line[1..], key)
  }

  function Drop<T>(s: seq<T>, i: nat): seq<T>
    requires i < |s|
  {
    s[..i] + s[i+1..]
  }

  function Got(line: Line, key: string): Line {
    var i := Find(line, key);
    if i == |line| then line else [line[i]] + Drop(line, i)
  }

  function PutIn(line: Line, max: nat, key: string, v: Rules): Line {
    var i := Find(line, key);
    if i < |line| then [(key, v)] + Drop(line, i)
    else Cut([(key, v)] + line, max)
  }

  function Cut<T>(s: seq<T>, max: nat): seq<T> { if |s| > max then s[..max] else s }

  // ---- The cache ----

  class Entry {
    const key: string
    var val: Rules

    constructor (key: string, val: Rules)
      ensures this.key == key && this.val == val
    {
      this.key, this.val := key, val;
    }
  }

  /** The map and the list hold the same entries, each once. */
  ghost predicate Linked(m: map<string, Entry>, lru: seq<Entry>) {
    && (forall i, j :: 0 <= i < j < |lru| ==> lru[i].key != lru[j].key)
    && (forall i :: 0 <= i < |lru| ==> lru[i].key in m && m[lru[i].key] == lru[i])
    && (forall k :: k in m ==> m[k].key == k && m[k] in lru)
  }

  lemma MoveKeepsLinked(m: map<string, Entry>, lru: seq<Entry>, i: nat)
    requires Linked(m, lru) && i < |lru|
    ensures Linked(m, [lru[i]] + Drop(lru, i))
  {
    var moved := [lru[i]] + Drop(lru, i);
    forall k | k in m ensures m[k] in moved {
      var j :| 0 <= j < |lru| && lru[j] == m[k];
      assert moved[if j == i then 0 else if j < i then j + 1 else j] == m[k];
    }
  }

  lemma PushKeepsLinked(m: map<string, Entry>, lru: seq<Entry>, e: Entry)
    requires Linked(m, lru) && e.key !in m
    ensures Linked(m[e.key := e], [e] + lru)
  {
    forall k | k in m ensures m[k] in [e] + lru {
      var j :| 0 <= j < |lru| && lru[j] == m[k];
      assert ([e] + lru)[j + 1] == m[k];
    }
  }

  lemma PopKeepsLinked(m: map<string, Entry>, lru: seq<Entry>)
    requires Linked(m, lru) && lru != []
    ensures Linked(m - {lru[|lru|-1].key}, lru[..|lru|-1])
  {
    var n := |lru| - 1;
    forall k | k in m && k != lru[n].key ensures m[k] in lru[..n] {
      var j :| 0 <= j < |lru| && lru[j] == m[k];
      assert lru[..n][j] == m[k];
    }
  }

  ghost function Values(lru: seq<Entry>): (line: Line)
    reads lru
    ensures |line| == |lru| && forall i :: 0 <= i < |lru| ==> line[i] == (lru[i].key, lru[i].val)
  {
    seq(|lru|, i requires 0 <= i < |lru| reads lru => (lru[i].key, lru[i].val))
  }

  class StandardsCache {
    var m: map<string, Entry>
    var lru: seq<Entry>   // most recently used first
    const max: nat

    constructor (max: nat)
      ensures Valid() && Contents() == [] && this.max == max
    {
      m, lru := map[], [];
      this.max := max;
    }

    ghost predicate Valid()
      reads this
    {
      Linked(m, lru) && |lru| <= max
    }

    ghost function Contents(): Line
      reads this, lru
    {
      Values(lru)
    }

    /** list.MoveToFront; the list finds the element by address, here it is looked up. */
    method MoveToFront(el: Entry) returns (ghost i: nat)
      requires Valid() && el in lru
      modifies this`lru
      ensures Valid()
      ensures i == Find(old(Contents()), el.key) < |old(lru)| && old(lru)[i] == el
      ensures Contents() == [old(Contents())[i]] + Drop(old(Contents()), i)
    {
      var k := 0;
      while lru[k] != el
        invariant k < |lru| && el !in lru[..k]
        decreases |lru| - k
      {
        k := k + 1;
      }
      assert Contents()[k].0 == el.key;
      MoveKeepsLinked(m, lru, k);
      MovedValues(lru, k);
      i := k;
      lru := [el] + Drop(lru, k);
    }

    method Get(key: string) returns (r: Option<Rules>)
      requires Valid()
      modifies this`lru
      ensures Valid()
      ensures Contents() == Got(old(Contents()), key)
      ensures var i := Find(old(Contents()), key);
              r == if i < |old(Contents())| then Some(old(Contents())[i].1) else None
    {
      if key !in m {
        return None;
      }
      var el := m[key];
      ghost var i := MoveToFront(el);
      return Some(el.val);
    }

    method Put(key: string, s: Rules)
      requires Valid()
      modifies this, lru
      ensures Valid()
      ensures Contents() == PutIn(old(Contents()), max, key, s)
    {
      if key in m {
        Refresh(m[key], s);
      } else {
        Insert(key, s);
      }
    }

    method Refresh(el: Entry, s: Rules)
      requires Valid() && el in lru
      modifies this`lru, el
      ensures Valid()
      ensures Contents() == PutIn(old(Contents()), max, el.key, s)
    {
      ghost var before := Contents();
      el.val := s;
      ghost var line := Contents();
      ghost var i := MoveToFront(el);
      assert line == before[i := (el.key, s)];
      RefreshedLine(before, max, el.key, s, i);
    }

    method Insert(key: string, s: Rules)
      requires Valid() && key !in m
      modifies this
      ensures Valid()
      ensures Contents() == PutIn(old(Contents()), max, key, s)
    {
      hide Linked;
      ghost var before := Contents();
      AbsentFind(m, lru, key);
      var el := new Entry(key, s);
      PushKeepsLinked(m, lru, el);
      PushedValues(lru, el);
      m := m[key := el];
      lru := [el] + lru;
      Evict();
    }

    /** Drops the least recently used until the bound holds. */
    method Evict()
      requires Linked(m, lru)
      modifies this`lru, this`m
      ensures Valid()
      ensures Contents() == Cut(old(Contents()), max)
    {
      ghost var full := lru;
      while |lru| > max
        invariant Linked(m, lru)
        invariant max <= |lru| < |full| || lru == full
        invariant lru == full[..|lru|]
        decreases |lru|
      {
        RemoveOldest();
      }
      CutValues(full, max);
    }

    method RemoveOldest()
      requires Linked(m, lru) && lru != []
      modifies this`lru, this`m
      ensures Linked(m, lru)
      ensures lru == old(lru)[..|old(lru)|-1]
    {
      PopKeepsLinked(m, lru);
      var oldest := lru[|lru|-1];
      lru := lru[..|lru|-1];
      m := m - {oldest.key};
    }
  }

  lemma CutValues(lru: seq<Entry>, max: nat)
    ensures Values(Cut(lru, max)) == Cut(Values(lru), max)
  {
  }

  lemma AbsentFind(m: map<string, Entry>, lru: seq<Entry>, key: string)
    requires Linked(m, lru) && key !in m
    ensures Find(Values(lru), key) == |lru|
  {
  }

  lemma PushedValues(lru: seq<Entry>, e: Entry)
    ensures Values([e] + lru) == [(e.key, e.val)] + Values(lru)
  {
  }

  /** Rewriting the value in place and moving the entry is a put of a present key. */
  lemma RefreshedLine(before: Line, max: nat, key: string, v: Rules, i: nat)
    requires i < |before| && before[i].0 == key && i == Find(before[i := (key, v)], key)
    ensures [(key, v)] + Drop(before[i := (key, v)], i) == PutIn(before, max, key, v)
  {
    SameKeysFind(before, before[i := (key, v)], key);
    assert Drop(before[i := (key, v)], i) == Drop(before, i);
  }

  lemma SameKeysFind(a: Line, b: Line, key: string)
    requires |a| == |b| && forall i :: 0 <= i < |a| ==> a[i].0 == b[i].0
    ensures Find(a, key) == Find(b, key)
  {
  }

  lemma MovedValues(lru: seq<Entry>, i: nat)
    requires i < |lru|
    ensures Values([lru[i]] + Drop(lru, i)) == [Values(lru)[i]] + Drop(Values(lru), i)
  {
  }
}
