/**
 Row locking in `Reserve`: the attempt lock first, then product rows in the order of the sorted lines.

 A lock machine runs any number of transactions over their lists of keys. When every list ascends,
 the wait-for graph is acyclic in every reachable state and some unfinished transaction can go on.
 */
module LockOrder {
  import opened Prelude
  import opened Catalog
  import opened Ledgers

  datatype Key = AttemptLock(attempt: Id) | RowLock(product: Id)

  function Rank(k: Key): nat {
    match k
    case AttemptLock(_) => 0
    case RowLock(p) => p + 1
  }

  /** A transaction takes its keys from left to right and lets all of them go when it ends. */
  datatype Tx = Tx(keys: seq<Key>, held: nat, ended: bool)

  datatype Move = Acquire(tx: nat) | Commit(tx: nat) | Abort(tx: nat)

  ghost predicate Holds(t: Tx, k: Key) {
    !t.ended && t.held <= |t.keys| && k in t.keys[..t.held]
  }

  /** No other transaction holds the key; a transaction may lock its own rows again. */
  ghost predicate FreeFor(s: seq<Tx>, i: nat, k: Key) {
    forall j :: 0 <= j < |s| && j != i ==> !Holds(s[j], k)
  }

  /** The transaction can take its next lock, or has them all and can commit. */
  ghost predicate CanGoOn(s: seq<Tx>, i: nat)
    requires i < |s|
  {
    && !s[i].ended && s[i].held <= |s[i].keys|
    && (s[i].held < |s[i].keys| ==> FreeFor(s, i, s[i].keys[s[i].held]))
  }

  ghost function Moved(s: seq<Tx>, m: Move): seq<Tx> {
    if m.tx >= |s| || s[m.tx].ended then s
    else
      match m
      case Acquire(i) => if s[i].held < |s[i].keys| && CanGoOn(s, i) then s[i := s[i].(held := s[i].held + 1)] else s
      case Commit(i) => if s[i].held == |s[i].keys| then s[i := s[i].(ended := true)] else s
      case Abort(i) => s[i := s[i].(ended := true)]
  }

  ghost function Moves(s: seq<Tx>, ms: seq<Move>): (t: seq<Tx>)
    ensures |t| == |s|
  {
    if ms == [] then s else Moved(Moves(s, ms[..|ms| - 1]), ms[|ms| - 1])
  }

  ghost predicate Ascends(keys: seq<Key>) {
    forall a, b :: 0 <= a < b < |keys| ==> Rank(keys[a]) < Rank(keys[b])
  }

  ghost predicate Untouched(s: seq<Tx>) {
    forall i :: 0 <= i < |s| ==> s[i].held == 0 && !s[i].ended
  }

  ghost predicate Starting(s: seq<Tx>) {
    Untouched(s) && forall i :: 0 <= i < |s| ==> Ascends(s[i].keys)
  }

  ghost predicate Ordered(s: seq<Tx>) {
    forall i :: 0 <= i < |s| ==> s[i].held <= |s[i].keys| && Ascends(s[i].keys)
  }

  lemma {:induction false} MovesKeepOrder(s: seq<Tx>, ms: seq<Move>)
    requires Starting(s)
    ensures Ordered(Moves(s, ms))
  {
    if ms != [] {
      MovesKeepOrder(s, ms[..|ms| - 1]);
    }
  }

  ghost predicate Exclusive(s: seq<Tx>) {
    forall i, j, k :: 0 <= i < |s| && 0 <= j < |s| && Holds(s[i], k) && Holds(s[j], k) ==> i == j
  }

  lemma AcquireIsExclusive(s: seq<Tx>, i: nat)
    requires Exclusive(s) && i < |s| && s[i].held < |s[i].keys| && CanGoOn(s, i)
    ensures Exclusive(s[i := s[i].(held := s[i].held + 1)])
  {
    var t := s[i := s[i].(held := s[i].held + 1)];
    var taken := s[i].keys[s[i].held];
    forall a, b, k | 0 <= a < |t| && 0 <= b < |t| && Holds(t[a], k) && Holds(t[b], k) ensures a == b {
      assert t[i].keys[..t[i].held] == s[i].keys[..s[i].held] + [taken];
      if k != taken {
        assert Holds(s[a], k) && Holds(s[b], k);
      } else {
        assert a != i ==> Holds(s[a], k);
        assert b != i ==> Holds(s[b], k);
      }
    }
  }

  /** A lock never has two holders. */
  lemma {:induction false} LocksExclude(s: seq<Tx>, ms: seq<Move>)
    requires Untouched(s)
    ensures Exclusive(Moves(s, ms))
  {
    if ms != [] {
      var t, m := Moves(s, ms[..|ms| - 1]), ms[|ms| - 1];
      LocksExclude(s, ms[..|ms| - 1]);
      if Moved(t, m) != t {
        if m.Acquire? {
          AcquireIsExclusive(t, m.tx);
        } else {
          var u := Moved(t, m);
          forall a, b, k | 0 <= a < |u| && 0 <= b < |u| && Holds(u[a], k) && Holds(u[b], k) ensures a == b {
            assert Holds(t[a], k) && Holds(t[b], k);
          }
        }
      }
    }
  }

  // ------------------------------------------------------------------ Waiting

  /** `i` wants a lock that another transaction `j` holds. */
  ghost predicate WaitsFor(s: seq<Tx>, i: nat, j: nat) {
    && i < |s| && j < |s| && i != j && !s[i].ended && s[i].held < |s[i].keys|
    && Holds(s[j], s[i].keys[s[i].held])
  }

  lemma WaitingClimbs(s: seq<Tx>, i: nat, j: nat)
    requires Ordered(s) && WaitsFor(s, i, j) && s[j].held < |s[j].keys|
    ensures Rank(s[i].keys[s[i].held]) < Rank(s[j].keys[s[j].held])
  {
    var k := s[i].keys[s[i].held];
    var a :| 0 <= a < s[j].held && s[j].keys[..s[j].held][a] == k;
    assert s[j].keys[a] == k;
  }

  ghost predicate WaitPath(s: seq<Tx>, path: seq<nat>) {
    forall a :: 0 <= a < |path| - 1 ==> WaitsFor(s, path[a], path[a + 1])
  }

  lemma {:induction false} PathClimbs(s: seq<Tx>, path: seq<nat>)
    requires Ordered(s) && WaitPath(s, path) && |path| >= 2
    requires path[|path| - 1] < |s| && s[path[|path| - 1]].held < |s[path[|path| - 1]].keys|
    ensures WaitsFor(s, path[0], path[1])
    ensures Rank(s[path[0]].keys[s[path[0]].held]) < Rank(s[path[|path| - 1]].keys[s[path[|path| - 1]].held])
  {
    assert WaitsFor(s, path[0], path[1]);
    if |path| == 2 {
      WaitingClimbs(s, path[0], path[1]);
    } else {
      var rest := path[1..];
      forall a | 0 <= a < |rest| - 1 ensures WaitsFor(s, rest[a], rest[a + 1]) {
        assert WaitsFor(s, path[a + 1], path[a + 2]);
      }
      PathClimbs(s, rest);
      WaitingClimbs(s, path[0], path[1]);
    }
  }

  /** No transaction ever waits for itself through any chain of waiters. */
  lemma WaitForGraphIsAcyclic(s: seq<Tx>, ms: seq<Move>, path: seq<nat>)
    requires Starting(s) && WaitPath(Moves(s, ms), path) && |path| >= 2
    ensures path[0] != path[|path| - 1]
  {
    var t := Moves(s, ms);
    MovesKeepOrder(s, ms);
    assert WaitsFor(t, path[0], path[1]);
    if path[0] == path[|path| - 1] {
      PathClimbs(t, path);
      assert false;
    }
  }

  ghost predicate Bounded(s: seq<Tx>, bound: nat) {
    forall i, a :: 0 <= i < |s| && 0 <= a < |s[i].keys| ==> Rank(s[i].keys[a]) < bound
  }

  lemma {:induction false} SomeBound(s: seq<Tx>) returns (bound: nat)
    ensures Bounded(s, bound)
  {
    bound := 0;
    for i := 0 to |s|
      invariant Bounded(s[..i], bound)
    {
      var grown := bound;
      for a := 0 to |s[i].keys|
        invariant grown >= bound && forall b :: 0 <= b < a ==> Rank(s[i].keys[b]) < grown
      {
        if Rank(s[i].keys[a]) >= grown {
          grown := Rank(s[i].keys[a]) + 1;
        }
      }
      bound := grown;
    }
    assert s[..|s|] == s;
  }

  lemma {:induction false} FollowWaiters(s: seq<Tx>, i: nat, bound: nat) returns (j: nat)
    requires Ordered(s) && Bounded(s, bound) && i < |s| && !s[i].ended
    ensures j < |s| && CanGoOn(s, j)
    decreases if s[i].held < |s[i].keys| then bound - Rank(s[i].keys[s[i].held]) else -1
  {
    if CanGoOn(s, i) {
      j := i;
    } else {
      var k :| 0 <= k < |s| && k != i && Holds(s[k], s[i].keys[s[i].held]);
      if s[k].held < |s[k].keys| {
        WaitingClimbs(s, i, k);
      }
      j := FollowWaiters(s, k, bound);
    }
  }

  /** In every reachable state with an unfinished transaction, one can go on without any abort. */
  lemma ReserveNeverDeadlocks(s: seq<Tx>, ms: seq<Move>, i: nat)
    requires Starting(s) && i < |s| && !Moves(s, ms)[i].ended
    ensures exists j: nat :: j < |s| && CanGoOn(Moves(s, ms), j)
  {
    var t := Moves(s, ms);
    MovesKeepOrder(s, ms);
    var bound := SomeBound(t);
    var j := FollowWaiters(t, i, bound);
  }

  // ------------------------------------------------------------------ The keys of a Reserve transaction

  /** Only rows that exist and are active are found by the locking query. */
  function RowKeys(products: map<Id, Product>, lines: seq<Line>): seq<Key> {
    if lines == [] then []
    else
      var line := lines[|lines| - 1];
      RowKeys(products, lines[..|lines| - 1])
      + if line.product in products && products[line.product].active then [RowLock(line.product)] else []
  }

  /** Two keys stand in the order of two lines. */
  ghost predicate InLineOrder(lines: seq<Line>, x: Key, y: Key) {
    exists i, j :: 0 <= i < j < |lines| && x == RowLock(lines[i].product) && y == RowLock(lines[j].product)
  }

  lemma OrderInLonger(lines: seq<Line>, last: Line, x: Key, y: Key)
    requires InLineOrder(lines, x, y)
    ensures InLineOrder(lines + [last], x, y)
  {
    var i, j :| 0 <= i < j < |lines| && x == RowLock(lines[i].product) && y == RowLock(lines[j].product);
    assert (lines + [last])[i] == lines[i] && (lines + [last])[j] == lines[j];
  }

  /** Which rows are locked, and in what order: exactly those of lines whose product exists and is for sale, each in the
      place of its line. */
  lemma {:induction false} RowsForSaleAreLocked(products: map<Id, Product>, lines: seq<Line>)
    ensures forall k :: k in RowKeys(products, lines) <==>
                        exists l :: l in lines && l.product in products && products[l.product].active && k == RowLock(l.product)
    ensures forall a, b :: 0 <= a < b < |RowKeys(products, lines)| ==>
                             InLineOrder(lines, RowKeys(products, lines)[a], RowKeys(products, lines)[b])
  {
    if lines != [] {
      var rest, last := lines[..|lines| - 1], lines[|lines| - 1];
      RowsForSaleAreLocked(products, rest);
      assert lines == rest + [last];
      var keys, front := RowKeys(products, lines), RowKeys(products, rest);
      forall a, b | 0 <= a < b < |keys| ensures InLineOrder(lines, keys[a], keys[b]) {
        if b < |front| {
          OrderInLonger(rest, last, front[a], front[b]);
        } else {
          assert front[a] in front && keys[a] == front[a];
          var l :| l in rest && front[a] == RowLock(l.product);
          var i :| 0 <= i < |rest| && rest[i] == l;
          assert lines[i] == l && lines[|rest|] == last;
        }
      }
    }
  }

  function KeysOf(products: map<Id, Product>, request: Request): seq<Key> {
    [AttemptLock(request.attempt)] + RowKeys(products, SortLines(request.lines))
  }

  lemma {:induction false} RowKeysAscend(products: map<Id, Product>, lines: seq<Line>)
    requires forall i, j :: 0 <= i < j < |lines| ==> lines[i].product < lines[j].product
    ensures Ascends(RowKeys(products, lines))
    ensures forall k :: k in RowKeys(products, lines) ==> k.RowLock? && lines != [] && k.product <= lines[|lines| - 1].product
  {
    if lines != [] {
      var rest, last := lines[..|lines| - 1], lines[|lines| - 1];
      RowKeysAscend(products, rest);
      forall k | k in RowKeys(products, rest) ensures k.product < last.product {
        assert rest[|rest| - 1] == lines[|rest| - 1];
      }
    }
  }

  /** Validated requests with canonical ids take their locks in ascending order. */
  lemma CanonicalKeysAscend(products: map<Id, Product>, request: Request)
    requires Valid(request) && Canonical(request.lines)
    ensures Ascends(KeysOf(products, request))
  {
    CanonicalAscends(request);
    RowKeysAscend(products, SortLines(request.lines));
    var rows := RowKeys(products, SortLines(request.lines));
    forall b | 0 <= b < |rows| ensures Rank(rows[b]) > 0 {
      assert rows[b] in rows;
    }
  }

  function Begun(products: map<Id, Product>, requests: seq<Request>): seq<Tx> {
    seq(|requests|, i requires 0 <= i < |requests| => Tx(KeysOf(products, requests[i]), 0, false))
  }

  /** Any number of concurrent Reserve transactions: as long as one is unfinished, one can go on. */
  lemma ConcurrentReservesNeverDeadlock(products: map<Id, Product>, requests: seq<Request>, ms: seq<Move>, i: nat)
    requires forall r :: r in requests ==> Valid(r) && Canonical(r.lines)
    requires i < |requests| && !Moves(Begun(products, requests), ms)[i].ended
    ensures exists j: nat :: j < |requests| && CanGoOn(Moves(Begun(products, requests), ms), j)
  {
    var s := Begun(products, requests);
    forall k | 0 <= k < |s| ensures Ascends(s[k].keys) {
      assert requests[k] in requests;
      CanonicalKeysAscend(products, requests[k]);
    }
    MovesKeepOrder(s, ms);
    ReserveNeverDeadlocks(s, ms, i);
  }

  // ------------------------------------------------------------------ When two requests can block each other

  ghost predicate Disjoint(ka: seq<Key>, kb: seq<Key>) {
    forall k :: k in ka ==> k !in kb
  }

  ghost predicate CrossesAt(ka: seq<Key>, kb: seq<Key>, a: nat, b: nat, c: nat, d: nat) {
    && a < b < |ka| && c < d < |kb| && ka[a] == kb[d] && ka[b] == kb[c]
    && Disjoint(ka[..a + 1], kb[..c + 1])
  }

  /** Two keys are taken in opposite orders, and no common key stands guard: none that both take no later than the
      first of the two each takes. */
  ghost predicate Crosses(ka: seq<Key>, kb: seq<Key>) {
    exists a: nat, b: nat, c: nat, d: nat :: CrossesAt(ka, kb, a, b, c, d)
  }

  ghost predicate Stuck(t: seq<Tx>) {
    |t| == 2 && !t[0].ended && !t[1].ended && !CanGoOn(t, 0) && !CanGoOn(t, 1)
  }

  ghost predicate CanBlock(s: seq<Tx>) {
    exists ms :: Stuck(Moves(s, ms))
  }

  function Pair(ka: seq<Key>, h: nat, kb: seq<Key>, k: nat): seq<Tx> {
    [Tx(ka, h, false), Tx(kb, k, false)]
  }

  lemma {:induction false} MovesKeepKeys(s: seq<Tx>, ms: seq<Move>)
    requires Untouched(s)
    ensures forall i :: 0 <= i < |s| ==> Moves(s, ms)[i].keys == s[i].keys && Moves(s, ms)[i].held <= |s[i].keys|
  {
    if ms != [] {
      MovesKeepKeys(s, ms[..|ms| - 1]);
    }
  }

  lemma HeldPrefix(t: Tx, n: nat)
    requires !t.ended && n <= t.held <= |t.keys|
    ensures forall k :: k in t.keys[..n] ==> Holds(t, k)
  {
    var taken := t.keys[..n];
    forall k | k in taken ensures Holds(t, k) {
      var i :| 0 <= i < n && taken[i] == k;
      assert t.keys[..t.held][i] == k;
    }
  }

  /** A stuck pair shows the crossing: each waits at a key the other took before. */
  lemma StuckCrosses(ka: seq<Key>, kb: seq<Key>, ms: seq<Move>)
    requires Stuck(Moves(Pair(ka, 0, kb, 0), ms))
    ensures Crosses(ka, kb)
  {
    var s := Pair(ka, 0, kb, 0);
    var t := Moves(s, ms);
    LocksExclude(s, ms);
    MovesKeepKeys(s, ms);
    var b, d := t[0].held, t[1].held;
    assert t[0].keys == s[0].keys == ka && t[1].keys == s[1].keys == kb;
    assert b < |ka| && Holds(t[1], ka[b]);
    assert d < |kb| && Holds(t[0], kb[d]);
    var c: nat :| c < d && kb[..d][c] == ka[b];
    var a: nat :| a < b && ka[..b][a] == kb[d];
    HeldPrefix(t[0], a + 1);
    HeldPrefix(t[1], c + 1);
    assert CrossesAt(ka, kb, a, b, c, d);
  }

  lemma MovesNext(s: seq<Tx>, ms: seq<Move>, m: Move)
    ensures Moves(s, ms + [m]) == Moved(Moves(s, ms), m)
  {
    assert (ms + [m])[..|ms|] == ms;
  }

  lemma FirstTakes(ka: seq<Key>, h: nat, kb: seq<Key>, k: nat)
    requires h < |ka| && k <= |kb| && ka[h] !in kb[..k]
    ensures Moved(Pair(ka, h, kb, k), Acquire(0)) == Pair(ka, h + 1, kb, k)
    ensures Disjoint(ka[..h], kb[..k]) ==> Disjoint(ka[..h + 1], kb[..k])
  {
    var s := Pair(ka, h, kb, k);
    assert FreeFor(s, 0, ka[h]);
    assert ka[..h + 1] == ka[..h] + [ka[h]];
  }

  lemma SecondTakes(ka: seq<Key>, h: nat, kb: seq<Key>, k: nat)
    requires h <= |ka| && k < |kb| && kb[k] !in ka[..h]
    ensures Moved(Pair(ka, h, kb, k), Acquire(1)) == Pair(ka, h, kb, k + 1)
    ensures Disjoint(ka[..h], kb[..k]) ==> Disjoint(ka[..h], kb[..k + 1])
  {
    var s := Pair(ka, h, kb, k);
    assert FreeFor(s, 1, kb[k]);
    assert kb[..k + 1] == kb[..k] + [kb[k]];
  }

  lemma {:induction false} TakeBoth(ka: seq<Key>, h: nat, kb: seq<Key>, k: nat) returns (ms: seq<Move>)
    requires h <= |ka| && k <= |kb| && Disjoint(ka[..h], kb[..k])
    ensures Moves(Pair(ka, 0, kb, 0), ms) == Pair(ka, h, kb, k)
    decreases h + k
  {
    if h > 0 {
      assert ka[..h] == ka[..h - 1] + [ka[h - 1]];
      ms := TakeBoth(ka, h - 1, kb, k);
      FirstTakes(ka, h - 1, kb, k);
      MovesNext(Pair(ka, 0, kb, 0), ms, Acquire(0));
      ms := ms + [Acquire(0)];
    } else if k > 0 {
      ms := TakeBoth(ka, h, kb, k - 1);
      SecondTakes(ka, h, kb, k - 1);
      MovesNext(Pair(ka, 0, kb, 0), ms, Acquire(1));
      ms := ms + [Acquire(1)];
    } else {
      ms := [];
    }
  }

  lemma {:induction false} CrossingGetsStuck(ka: seq<Key>, kb: seq<Key>, a: nat, b: nat, c: nat, d: nat, h: nat, k: nat)
    requires CrossesAt(ka, kb, a, b, c, d) && a < h <= b && c < k <= d && Disjoint(ka[..h], kb[..k])
    ensures CanBlock(Pair(ka, 0, kb, 0))
    decreases b - h + (d - k)
  {
    if ka[h] !in kb[..k] {
      assert kb[..k][c] == ka[b];
      FirstTakes(ka, h, kb, k);
      CrossingGetsStuck(ka, kb, a, b, c, d, h + 1, k);
    } else if kb[k] !in ka[..h] {
      assert ka[..h][a] == kb[d];
      SecondTakes(ka, h, kb, k);
      CrossingGetsStuck(ka, kb, a, b, c, d, h, k + 1);
    } else {
      var ms := TakeBoth(ka, h, kb, k);
      var t := Pair(ka, h, kb, k);
      assert Holds(t[1], ka[h]) && Holds(t[0], kb[k]);
      assert Stuck(Moves(Pair(ka, 0, kb, 0), ms));
    }
  }

  lemma {:induction false} KeysBlockIffTheyCross(ka: seq<Key>, kb: seq<Key>)
    ensures CanBlock(Pair(ka, 0, kb, 0)) <==> Crosses(ka, kb)
  {
    if CanBlock(Pair(ka, 0, kb, 0)) {
      var ms :| Stuck(Moves(Pair(ka, 0, kb, 0), ms));
      StuckCrosses(ka, kb, ms);
    }
    if Crosses(ka, kb) {
      var a: nat, b: nat, c: nat, d: nat :| CrossesAt(ka, kb, a, b, c, d);
      CrossingGetsStuck(ka, kb, a, b, c, d, a + 1, c + 1);
    }
  }

  lemma {:induction false} OnlyRows(products: map<Id, Product>, lines: seq<Line>)
    ensures forall k :: k in RowKeys(products, lines) ==> k.RowLock?
  {
    if lines != [] {
      OnlyRows(products, lines[..|lines| - 1]);
    }
  }

  /** Two different heads that nobody else takes neither make nor break a crossing. */
  lemma HeadsDoNotMatter(ga: Key, ka: seq<Key>, gb: Key, kb: seq<Key>, a: nat, b: nat, c: nat, d: nat)
    requires ga != gb && ga !in ka && ga !in kb && gb !in ka && gb !in kb
    ensures CrossesAt(ka, kb, a, b, c, d) <==> CrossesAt([ga] + ka, [gb] + kb, a + 1, b + 1, c + 1, d + 1)
  {
    if a < |ka| && c < |kb| {
      var pa, pb := ka[..a + 1], kb[..c + 1];
      assert ([ga] + ka)[..a + 2] == [ga] + pa && ([gb] + kb)[..c + 2] == [gb] + pb;
      assert (forall k :: k in pa ==> k in ka) && (forall k :: k in pb ==> k in kb);
      HeadsStayDisjoint(ga, pa, gb, pb);
    }
  }

  lemma HeadsStayDisjoint(ga: Key, pa: seq<Key>, gb: Key, pb: seq<Key>)
    requires ga != gb && ga !in pb && gb !in pa
    ensures Disjoint(pa, pb) <==> Disjoint([ga] + pa, [gb] + pb)
  {
    if Disjoint([ga] + pa, [gb] + pb) {
      forall k | k in pa ensures k !in pb {
        assert k in [ga] + pa;
      }
    }
  }

  lemma CrossingsAreAboutRows(ga: Key, ka: seq<Key>, gb: Key, kb: seq<Key>)
    requires ga != gb && ga !in ka && ga !in kb && gb !in ka && gb !in kb
    ensures Crosses([ga] + ka, [gb] + kb) <==> Crosses(ka, kb)
  {
    if Crosses(ka, kb) {
      var a: nat, b: nat, c: nat, d: nat :| CrossesAt(ka, kb, a, b, c, d);
      HeadsDoNotMatter(ga, ka, gb, kb, a, b, c, d);
    }
    var la, lb := [ga] + ka, [gb] + kb;
    if Crosses(la, lb) {
      var a: nat, b: nat, c: nat, d: nat :| CrossesAt(la, lb, a, b, c, d);
      assert la[a] in lb && lb[c] in la;
      assert a > 0 && c > 0;
      HeadsDoNotMatter(ga, ka, gb, kb, a - 1, b - 1, c - 1, d - 1);
    }
  }

  /** Exactly which two Reserve transactions of different attempts can block each other: those that take two active
      rows in opposite orders with no common row standing guard before them. */
  lemma {:induction false} TwoReservesBlockIffTheyCross(products: map<Id, Product>, p: Request, q: Request)
    requires p.attempt != q.attempt
    ensures CanBlock(Begun(products, [p, q])) <==>
              Crosses(RowKeys(products, SortLines(p.lines)), RowKeys(products, SortLines(q.lines)))
  {
    assert Begun(products, [p, q]) == Pair(KeysOf(products, p), 0, KeysOf(products, q), 0);
    KeysBlockIffTheyCross(KeysOf(products, p), KeysOf(products, q));
    OnlyRows(products, SortLines(p.lines));
    OnlyRows(products, SortLines(q.lines));
    CrossingsAreAboutRows(AttemptLock(p.attempt), RowKeys(products, SortLines(p.lines)),
                          AttemptLock(q.attempt), RowKeys(products, SortLines(q.lines)));
  }

  /** Calls for one attempt never block each other: the attempt lock stands guard. */
  lemma {:induction false} OneAttemptNeverBlocks(products: map<Id, Product>, p: Request, q: Request)
    requires p.attempt == q.attempt
    ensures !CanBlock(Begun(products, [p, q]))
  {
    assert Begun(products, [p, q]) == Pair(KeysOf(products, p), 0, KeysOf(products, q), 0);
    KeysBlockIffTheyCross(KeysOf(products, p), KeysOf(products, q));
    SharedFirstKeyNeverCrosses(KeysOf(products, p), KeysOf(products, q));
  }

  lemma SharedHeadGuards(ka: seq<Key>, kb: seq<Key>, a: nat, b: nat, c: nat, d: nat)
    requires ka != [] && kb != [] && ka[0] == kb[0]
    ensures !CrossesAt(ka, kb, a, b, c, d)
  {
    if a < |ka| && c < |kb| {
      var pa, pb := ka[..a + 1], kb[..c + 1];
      assert pa[0] == pb[0] && pa[0] in pa && pb[0] in pb;
    }
  }

  lemma SharedFirstKeyNeverCrosses(x: seq<Key>, y: seq<Key>)
    requires x != [] && y != [] && x[0] == y[0]
    ensures !Crosses(x, y)
  {
    forall a: nat, b: nat, c: nat, d: nat ensures !CrossesAt(x, y, a, b, c, d) {
      SharedHeadGuards(x, y, a, b, c, d);
    }
  }

  // ------------------------------------------------------------------ Why canonical spelling matters

  /** Within a set of requests one text names one row. */
  ghost predicate OneRowPerText(p: Request, q: Request) {
    forall l, m :: l in p.lines + q.lines && m in p.lines + q.lines && l.spelling == m.spelling ==> l.product == m.product
  }

  /** Two validated requests over rows 2 and 3. The second spells row 3 so that it sorts before row 2, as upper case
      letters sort before lower case ones. */
  function PlainRequest(): Request { Request(10, [Line(2, 2, 1), Line(3, 3, 1)], 60) }
  function OddRequest(): Request { Request(11, [Line(1, 3, 1), Line(2, 2, 1)], 60) }

  lemma OddRequestsAreValid()
    ensures Valid(PlainRequest()) && Valid(OddRequest()) && OneRowPerText(PlainRequest(), OddRequest())
  {
    SmallRequestIsValid(PlainRequest());
    SmallRequestIsValid(OddRequest());
  }

  /** Without canonical spelling, validated requests can block each other for ever. */
  lemma {:induction false} OddSpellingsCanDeadlock(products: map<Id, Product>)
    requires 2 in products && 3 in products && products[2].active && products[3].active
    ensures Valid(PlainRequest()) && Valid(OddRequest()) && OneRowPerText(PlainRequest(), OddRequest())
    ensures CanBlock(Begun(products, [PlainRequest(), OddRequest()]))
  {
    OddRequestsAreValid();
    OppositeKeysCross();
    OddRows(products);
    TwoReservesBlockIffTheyCross(products, PlainRequest(), OddRequest());
  }

  lemma OddRows(products: map<Id, Product>)
    requires 2 in products && 3 in products && products[2].active && products[3].active
    ensures RowKeys(products, SortLines(PlainRequest().lines)) == [RowLock(2), RowLock(3)]
    ensures RowKeys(products, SortLines(OddRequest().lines)) == [RowLock(3), RowLock(2)]
  {
    PairKeys(products, Line(2, 2, 1), Line(3, 3, 1));
    PairKeys(products, Line(1, 3, 1), Line(2, 2, 1));
  }

  lemma OppositeKeysCross()
    ensures Crosses([RowLock(2), RowLock(3)], [RowLock(3), RowLock(2)])
  {
    var ka, kb := [RowLock(2), RowLock(3)], [RowLock(3), RowLock(2)];
    assert ka[..1] == [RowLock(2)] && kb[..1] == [RowLock(3)];
    assert CrossesAt(ka, kb, 0, 1, 0, 1);
  }

  lemma PairKeys(products: map<Id, Product>, a: Line, b: Line)
    requires a.spelling <= b.spelling && a.product in products && b.product in products
    requires products[a.product].active && products[b.product].active
    ensures RowKeys(products, SortLines([a, b])) == [RowLock(a.product), RowLock(b.product)]
  {
    assert [a, b][1..] == [b] && [b][1..] == [] && SortLines([b]) == [b] && SortLines([a, b]) == [a, b];
    assert [a, b][..1] == [a] && [a][..0] == [] && RowKeys(products, [a]) == [RowLock(a.product)];
  }

  lemma SortedTriple(a: Line, b: Line, c: Line)
    requires a.spelling <= b.spelling <= c.spelling
    ensures SortLines([a, b, c]) == [a, b, c]
  {
    assert [a, b, c][1..] == [b, c] && [b, c][1..] == [c] && [c][1..] == [];
    assert SortLines([c]) == [c] && SortLines([b, c]) == [b, c];
  }

  lemma TripleKeys(products: map<Id, Product>, a: Line, b: Line, c: Line)
    requires a.spelling <= b.spelling <= c.spelling && a.product in products && b.product in products && c.product in products
    requires products[a.product].active && products[b.product].active && products[c.product].active
    ensures RowKeys(products, SortLines([a, b, c])) == [RowLock(a.product), RowLock(b.product), RowLock(c.product)]
  {
    SortedTriple(a, b, c);
    assert [a, b, c][..2] == [a, b] && [a, b][..1] == [a] && [a][..0] == [];
    assert RowKeys(products, [a]) == [RowLock(a.product)];
    assert RowKeys(products, [a, b]) == [RowLock(a.product), RowLock(b.product)];
  }

  /** The same two requests with row 4 in front. */
  function GuardedPlainRequest(): Request { Request(10, [Line(0, 4, 1), Line(2, 2, 1), Line(3, 3, 1)], 60) }
  function GuardedOddRequest(): Request { Request(11, [Line(0, 4, 1), Line(1, 3, 1), Line(2, 2, 1)], 60) }

  /** Lines with ascending texts make a request, from one to three of them. */
  lemma SmallRequestIsValid(r: Request)
    requires 1 <= |r.lines| <= 3 && r.ttlSeconds == 60 && forall i :: 0 <= i < |r.lines| ==> r.lines[i].quantity == 1
    requires forall i, j :: 0 <= i < j < |r.lines| ==> r.lines[i].spelling < r.lines[j].spelling
    ensures Valid(r)
  {
  }

  lemma GuardedRequestsAreValid()
    ensures Valid(GuardedPlainRequest()) && Valid(GuardedOddRequest()) && OneRowPerText(GuardedPlainRequest(), GuardedOddRequest())
  {
    SmallRequestIsValid(GuardedPlainRequest());
    SmallRequestIsValid(GuardedOddRequest());
  }

  lemma GuardedRows(products: map<Id, Product>)
    requires forall r :: 2 <= r <= 4 ==> r in products && products[r].active
    ensures RowKeys(products, SortLines(GuardedPlainRequest().lines)) == [RowLock(4), RowLock(2), RowLock(3)]
    ensures RowKeys(products, SortLines(GuardedOddRequest().lines)) == [RowLock(4), RowLock(3), RowLock(2)]
  {
    TripleKeys(products, Line(0, 4, 1), Line(2, 2, 1), Line(3, 3, 1));
    TripleKeys(products, Line(0, 4, 1), Line(1, 3, 1), Line(2, 2, 1));
  }

  /** Opposite orders alone do not suffice: behind a row that both lock first, two rows taken in opposite orders
      block nobody. */
  lemma {:induction false} AGuardRowPreventsBlocking(products: map<Id, Product>)
    requires forall r :: 2 <= r <= 4 ==> r in products && products[r].active
    ensures Valid(GuardedPlainRequest()) && Valid(GuardedOddRequest()) && OneRowPerText(GuardedPlainRequest(), GuardedOddRequest())
    ensures RowKeys(products, SortLines(GuardedPlainRequest().lines)) == [RowLock(4), RowLock(2), RowLock(3)]
    ensures RowKeys(products, SortLines(GuardedOddRequest().lines)) == [RowLock(4), RowLock(3), RowLock(2)]
    ensures !CanBlock(Begun(products, [GuardedPlainRequest(), GuardedOddRequest()]))
  {
    GuardedRequestsAreValid();
    GuardedRows(products);
    TwoReservesBlockIffTheyCross(products, GuardedPlainRequest(), GuardedOddRequest());
    SharedFirstKeyNeverCrosses([RowLock(4), RowLock(2), RowLock(3)], [RowLock(4), RowLock(3), RowLock(2)]);
  }
}
