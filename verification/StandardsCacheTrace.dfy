/** What the cache promises over a whole history of gets and puts: recency order, the right survivors,
    and the value last put. */
module StandardsCacheTrace {
  import opened Wrappers
  import opened StandardsCaches

  datatype Op = GetOp(key: string) | PutOp(key: string, val: Rules)

  /** The contents after one call, as the methods of StandardsCache are specified. */
  function Step(line: Line, max: nat, op: Op): Line {
    match op
    case GetOp(key) => Got(line, key)
    case PutOp(key, v) => PutIn(line, max, key, v)
  }

  /** The contents of a new cache after the history. */
  function After(ops: seq<Op>, max: nat): Line {
    if ops == [] then [] else Step(After(ops[..|ops|-1], max), max, ops[|ops|-1])
  }

  predicate Has(line: Line, key: string) { Find(line, key) < |line| }

  /** Position in the history of the last put of the key or get that found it; -1 if there is none. */
  function LastTouch(ops: seq<Op>, max: nat, key: string): int
    decreases |ops|
  {
    if ops == [] then -1
    else
      var n := |ops| - 1;
      if ops[n].key == key && (ops[n].PutOp? || Has(After(ops[..n], max), key)) then n
      else LastTouch(ops[..n], max, key)
  }

  function LastPut(ops: seq<Op>, key: string): Option<Rules>
    decreases |ops|
  {
    if ops == [] then None
    else
      var op := ops[|ops|-1];
      if op.PutOp? && op.key == key then Some(op.val) else LastPut(ops[..|ops|-1], key)
  }

  type Touches = string -> int
  type Puts = string -> Option<Rules>

  ghost predicate Sorted(touch: Touches, line: Line) {
    forall i, j :: 0 <= i < j < |line| ==> touch(line[i].0) > touch(line[j].0)
  }

  /** In order of last touch, most recent first, each key with the value last put for it. */
  ghost predicate InOrder(touch: Touches, put: Puts, line: Line) {
    && Sorted(touch, line)
    && (forall i :: 0 <= i < |line| ==> put(line[i].0) == Some(line[i].1))
  }

  /** A key that was put and is gone is older than everything kept. */
  ghost predicate RestIsOlder(touch: Touches, put: Puts, line: Line) {
    forall key, i :: put(key).Some? && !Has(line, key) && 0 <= i < |line| ==> touch(key) < touch(line[i].0)
  }

  /** The line is the `max` most recently touched keys that were ever put, or all of them if fewer. */
  ghost predicate MostRecent(touch: Touches, put: Puts, max: nat, line: Line) {
    && |line| <= max
    && InOrder(touch, put, line)
    && RestIsOlder(touch, put, line)
    && forall key :: put(key).Some? && !Has(line, key) ==> |line| == max
  }

  lemma LastTouchBound(ops: seq<Op>, max: nat, key: string)
    ensures LastTouch(ops, max, key) < |ops|
  {
  }

  /** A touch of any other key leaves a key's history as it was. */
  lemma OtherKey(ops: seq<Op>, max: nat, op: Op, key: string)
    requires op.key != key || (op.GetOp? && !Has(After(ops, max), key))
    ensures LastTouch(ops + [op], max, key) == LastTouch(ops, max, key)
    ensures LastPut(ops + [op], key) == LastPut(ops, key)
  {
    assert (ops + [op])[..|ops|] == ops;
  }

  lemma TouchedKey(ops: seq<Op>, max: nat, op: Op)
    requires op.PutOp? || Has(After(ops, max), op.key)
    ensures LastTouch(ops + [op], max, op.key) == |ops|
    ensures LastPut(ops + [op], op.key) == if op.PutOp? then Some(op.val) else LastPut(ops, op.key)
  {
    assert (ops + [op])[..|ops|] == ops;
  }

  /** One more touch, of `key` at time n: the histories agree on every other key. */
  ghost predicate Touched(touch: Touches, put: Puts, touch': Touches, put': Puts, key: string, n: int) {
    && touch'(key) == n
    && forall k :: k != key ==> touch'(k) == touch(k) < n && put'(k) == put(k)
  }

  /** The line without one key: the other entries, in the same order. */
  function Others(line: Line, key: string): Line {
    var p := Find(line, key);
    if p < |line| then Drop(line, p) else line
  }

  lemma OthersAt(touch: Touches, line: Line, key: string)
    requires Sorted(touch, line)
    ensures var rest := Others(line, key);
            && |rest| == |line| - (if Has(line, key) then 1 else 0)
            && forall i :: 0 <= i < |rest| ==>
                rest[i].0 != key && rest[i] == line[if i < Find(line, key) then i else i + 1]
  {
    var rest, p := Others(line, key), Find(line, key);
    forall i | 0 <= i < |rest|
      ensures rest[i].0 != key && rest[i] == line[if i < p then i else i + 1]
    {
      if p < i + 1 < |line| { assert touch(line[p].0) > touch(line[i + 1].0); }
    }
  }

  lemma OthersHas(touch: Touches, line: Line, key: string, k: string)
    requires Sorted(touch, line) && k != key
    ensures Has(Others(line, key), k) <==> Has(line, k)
  {
    var rest, p := Others(line, key), Find(line, key);
    OthersAt(touch, line, key);
    if Has(line, k) {
      var i := Find(line, k);
      assert rest[if i < p then i else i - 1].0 == k;
    }
  }

  lemma OthersInOrder(touch: Touches, put: Puts, line: Line, key: string)
    requires InOrder(touch, put, line)
    ensures InOrder(touch, put, Others(line, key))
  {
    OthersAt(touch, line, key);
  }

  lemma HasPushed(e: (string, Rules), rest: Line, k: string)
    ensures Has([e] + rest, k) <==> e.0 == k || Has(rest, k)
  {
    if Has(rest, k) { assert ([e] + rest)[Find(rest, k) + 1].0 == k; }
    if Has([e] + rest, k) && e.0 != k { assert rest[Find([e] + rest, k) - 1].0 == k; }
  }

  lemma PushedInOrder(touch: Touches, put: Puts, touch': Touches, put': Puts, key: string, n: int, v: Rules, rest: Line)
    requires Touched(touch, put, touch', put', key, n) && put'(key) == Some(v)
    requires InOrder(touch, put, rest) && forall i :: 0 <= i < |rest| ==> rest[i].0 != key
    ensures InOrder(touch', put', [(key, v)] + rest)
  {
  }

  /** The touched key in front of the others, before any eviction. */
  lemma FrontInOrder(touch: Touches, put: Puts, touch': Touches, put': Puts, key: string, n: int, v: Rules, line: Line)
    requires Touched(touch, put, touch', put', key, n) && put'(key) == Some(v)
    requires InOrder(touch, put, line) && RestIsOlder(touch, put, line)
    ensures var front := [(key, v)] + Others(line, key);
            && InOrder(touch', put', front) && RestIsOlder(touch', put', front)
            && forall k :: k != key ==> (Has(front, k) <==> Has(line, k))
  {
    var rest := Others(line, key);
    var front := [(key, v)] + rest;
    OthersAt(touch, line, key);
    OthersInOrder(touch, put, line, key);
    PushedInOrder(touch, put, touch', put', key, n, v, rest);
    forall k | k != key ensures Has(front, k) <==> Has(line, k) {
      HasPushed((key, v), rest, k);
      OthersHas(touch, line, key, k);
    }
    assert Has(front, key);
    forall k, i | put'(k).Some? && !Has(front, k) && 0 <= i < |front|
      ensures touch'(k) < touch'(front[i].0)
    {
      if i > 0 { assert front[i] == rest[i - 1]; }
    }
  }

  /** Dropping the last entry keeps the order, and what is dropped is older than what stays. */
  lemma CutInOrder(touch: Touches, put: Puts, line: Line)
    requires line != [] && InOrder(touch, put, line) && RestIsOlder(touch, put, line)
    ensures InOrder(touch, put, line[..|line|-1]) && RestIsOlder(touch, put, line[..|line|-1])
  {
    var cut := line[..|line|-1];
    forall key, i | put(key).Some? && !Has(cut, key) && 0 <= i < |cut|
      ensures touch(key) < touch(cut[i].0)
    {
      if Has(line, key) {
        forall m | 0 <= m < |cut| ensures line[m].0 != key { assert cut[m].0 != key; }
      }
    }
  }

  lemma TouchedLine(touch: Touches, put: Puts, touch': Touches, put': Puts, n: int, v: Rules, max: nat, op: Op,
      line: Line)
    requires Touched(touch, put, touch', put', op.key, n) && put'(op.key) == Some(v)
    requires MostRecent(touch, put, max, line)
    requires if op.PutOp? then v == op.val else Has(line, op.key) && line[Find(line, op.key)].1 == v
    ensures MostRecent(touch', put', max, Step(line, max, op))
  {
    FrontInOrder(touch, put, touch', put', op.key, n, v, line);
    var front := [(op.key, v)] + Others(line, op.key);
    if |front| > max {
      assert |line| == max && front[..max] == front[..|front|-1];
      CutInOrder(touch', put', front);
    } else {
      assert Has(front, op.key);
    }
  }

  /** Main result: after any history the cache holds exactly the `max` most recently touched keys that
      were ever put (all of them, if there are fewer), in order of last touch, each with the value last
      put for it. A hit is therefore always current, and a miss is a key never put or older than `max`
      others. */
  lemma {:induction false} CacheKeepsTheMostRecent(ops: seq<Op>, max: nat)
    ensures MostRecent(k => LastTouch(ops, max, k), k => LastPut(ops, k), max, After(ops, max))
    decreases |ops|
  {
    if ops != [] {
      var n := |ops| - 1;
      var before, op := ops[..n], ops[n];
      var line := After(before, max);
      assert ops == before + [op];
      CacheKeepsTheMostRecent(before, max);
      var touch, put := k => LastTouch(before, max, k), k => LastPut(before, k);
      var touch', put' := k => LastTouch(ops, max, k), k => LastPut(ops, k);
      if op.PutOp? || Has(line, op.key) {
        TouchedKey(before, max, op);
        forall k | k != op.key ensures touch'(k) == touch(k) < n && put'(k) == put(k) {
          OtherKey(before, max, op, k);
          LastTouchBound(before, max, k);
        }
        var v := if op.PutOp? then op.val else line[Find(line, op.key)].1;
        TouchedLine(touch, put, touch', put', n, v, max, op, line);
      } else {
        forall k ensures touch'(k) == touch(k) && put'(k) == put(k) {
          OtherKey(before, max, op, k);
        }
      }
    }
  }

  /** A hit returns the value last put for the key. */
  lemma HitsAreCurrent(ops: seq<Op>, max: nat, key: string)
    requires Has(After(ops, max), key)
    ensures LastPut(ops, key) == Some(After(ops, max)[Find(After(ops, max), key)].1)
  {
    CacheKeepsTheMostRecent(ops, max);
  }
}
