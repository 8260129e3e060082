/**
 One user's cart under interleaving.

 A read is a cache lookup, two SELECTs and a cache write; a write is a commit and, later, a cache delete that may be
 lost. Other users share neither rows nor cache keys. `contents[v]` is the history: what the cart held at version v.
 */
module CartRuns {
  import opened Prelude
  import opened Carts

  /** `caches` tells whether the reader is a `Get`, which writes the cache, or a `DeleteItem` that deleted nothing,
      which only answers with what its own two SELECTs found. */
  datatype Reader =
    | Missed(caches: bool)                    // nothing is read yet
    | HalfRead(caches: bool, version: nat)    // the first SELECT is done
    | Fetched(caches: bool, cart: Cart)       // both SELECTs are done
    | Returned(cart: Cart)

  datatype State = State(
    rows: Rows, cache: Option<Cart>, readers: map<Id, Reader>, written: seq<Cart>, pending: nat,
    contents: seq<map<Id, int>>)

  datatype Step =
    | Set(product: Id, quantity: int, commits: bool)
    | Delete(product: Id, commits: bool)
    | DeleteNothing(reader: Id, product: Id)
    | Invalidate(lost: bool)
    | Expire
    | Lookup(reader: Id, readable: bool)
    | SelectVersion(reader: Id)
    | SelectItems(reader: Id)
    | Store(reader: Id, stored: bool)

  const EMPTY := State(ABSENT, None, map[], [], 0, [map[]])

  /** A committed write that changed the rows: history grows, the writer returns the new cart, a delete is due. */
  ghost function Written(s: State, after: Rows): State {
    if after == s.rows then s
    else s.(rows := after, written := s.written + [CartOf(after)], pending := s.pending + 1, contents := s.contents + [after.items])
  }

  ghost function FirstSelect(rows: Rows, caches: bool): Reader {
    match rows.version
    case None => Fetched(caches, Cart(0, []))
    case Some(v) => HalfRead(caches, v)
  }

  ghost function Next(s: State, step: Step): State {
    match step
    case Set(p, q, commits) => Written(s, SetTx(s.rows, p, q, commits))
    case Delete(p, commits) => Written(s, DeleteTx(s.rows, p, commits))
    case DeleteNothing(r, p) =>
      if r in s.readers || p in s.rows.items then s
      else s.(readers := s.readers[r := Missed(false)], pending := s.pending + 1)
    case Invalidate(lost) => if s.pending == 0 then s else s.(pending := s.pending - 1, cache := if lost then s.cache else None)
    case Expire => s.(cache := None)
    case Lookup(r, readable) =>
      if r in s.readers then s
      else s.(readers := s.readers[r := if readable && s.cache.Some? then Returned(s.cache.value) else Missed(true)])
    case SelectVersion(r) =>
      if r in s.readers && s.readers[r].Missed? then s.(readers := s.readers[r := FirstSelect(s.rows, s.readers[r].caches)]) else s
    case SelectItems(r) =>
      if r in s.readers && s.readers[r].HalfRead? then
        s.(readers := s.readers[r := Fetched(s.readers[r].caches, Cart(s.readers[r].version, Listing(s.rows.items)))])
      else s
    case Store(r, stored) =>
      if r in s.readers && s.readers[r].Fetched? then
        s.(cache := if stored && s.readers[r].caches then Some(s.readers[r].cart) else s.cache,
           readers := s.readers[r := Returned(s.readers[r].cart)])
      else s
  }

  ghost function Run(steps: seq<Step>): State {
    if steps == [] then EMPTY else Next(Run(steps[..|steps| - 1]), steps[|steps| - 1])
  }

  // ------------------------------------------------------------------ Versions

  /** The current version is the length of the history, and the history ends with the rows. */
  ghost predicate Versioned(s: State) {
    && |s.contents| >= 1 && s.contents[0] == map[] && Keyed(s.rows)
    && CartOf(s.rows).version == |s.contents| - 1 && s.contents[|s.contents| - 1] == s.rows.items
    && (s.rows.version.None? ==> |s.contents| == 1)
  }

  ghost predicate HasRead(s: State, c: Cart) {
    exists r :: r in s.readers && (s.readers[r].Fetched? || s.readers[r].Returned?) && s.readers[r].cart == c
  }

  /** Some cart the service holds or has handed out: cached, in flight, or returned by a read or a write. */
  ghost predicate Seen(s: State, c: Cart) {
    s.cache == Some(c) || c in s.written || HasRead(s, c)
  }

  /** The pair is what the cart held at that version. */
  ghost predicate True(contents: seq<map<Id, int>>, c: Cart) {
    c.version < |contents| && c.items == Listing(contents[c.version])
  }

  /** The weaker truth of two separate SELECTs: the items are those of the version or of a later one. */
  ghost predicate NotOlder(contents: seq<map<Id, int>>, c: Cart) {
    exists w :: c.version <= w < |contents| && c.items == Listing(contents[w])
  }

  lemma RowsAreTrue(s: State)
    requires Versioned(s)
    ensures True(s.contents, CartOf(s.rows))
  {
    assert Listing(map[]) == [];
  }

  lemma WriteIsVersioned(s: State, step: Step)
    requires Versioned(s) && (step.Set? || step.Delete?)
    ensures Versioned(Next(s, step))
    ensures Next(s, step).rows.items != s.rows.items ==> Next(s, step).rows.version == Some(CartOf(s.rows).version + 1)
  {
    match step
    case Set(p, q, commits) => WritesRaiseTheVersion(s.rows, p, q, commits);
    case Delete(p, commits) => WritesRaiseTheVersion(s.rows, p, 1, commits);
  }

  lemma {:induction false} RunIsVersioned(steps: seq<Step>)
    ensures Versioned(Run(steps))
  {
    if steps != [] {
      RunIsVersioned(steps[..|steps| - 1]);
      var last := steps[|steps| - 1];
      if last.Set? || last.Delete? {
        WriteIsVersioned(Run(steps[..|steps| - 1]), last);
      }
    }
  }

  /** Over every run a step that changes the contents takes the next version, no version is ever taken back, and
      what the cart held at an earlier version is never rewritten. */
  lemma {:induction false} ContentChangesTakeNewVersions(steps: seq<Step>, step: Step)
    ensures var s, t := Run(steps), Run(steps + [step]);
            && s.contents <= t.contents
            && CartOf(s.rows).version <= CartOf(t.rows).version
            && (t.rows.items != s.rows.items ==> CartOf(t.rows).version == CartOf(s.rows).version + 1)
  {
    assert (steps + [step])[..|steps|] == steps;
    RunIsVersioned(steps);
    if step.Set? || step.Delete? {
      WriteIsVersioned(Run(steps), step);
    }
  }

  // ------------------------------------------------------------------ Two separate SELECTs

  ghost predicate AllNotOlder(s: State) {
    && (forall r :: r in s.readers && s.readers[r].HalfRead? ==> s.readers[r].version < |s.contents|)
    && forall c :: Seen(s, c) ==> NotOlder(s.contents, c)
  }

  lemma NotOlderStays(contents: seq<map<Id, int>>, after: seq<map<Id, int>>, c: Cart)
    requires NotOlder(contents, c) && contents <= after
    ensures NotOlder(after, c)
  {
    var w :| c.version <= w < |contents| && c.items == Listing(contents[w]);
    assert c.items == Listing(after[w]);
  }

  /** A cart not seen before is the current one, or the pair a second SELECT has just completed. */
  lemma NewlySeen(s: State, step: Step, c: Cart)
    requires Seen(Next(s, step), c) && !Seen(s, c)
    ensures || c == CartOf(Next(s, step).rows)
            || (step.SelectItems? && step.reader in s.readers && s.readers[step.reader].HalfRead?
                && c == Cart(s.readers[step.reader].version, Listing(s.rows.items)))
  {
  }

  lemma StepIsNotOlder(s: State, step: Step)
    requires AllNotOlder(s) && Versioned(s) && Versioned(Next(s, step)) && s.contents <= Next(s, step).contents
    ensures AllNotOlder(Next(s, step))
  {
    var t := Next(s, step);
    forall c | Seen(t, c) ensures NotOlder(t.contents, c) {
      if Seen(s, c) {
        NotOlderStays(s.contents, t.contents, c);
      } else {
        NewlySeen(s, step, c);
        RowsAreTrue(t);
        assert t.contents[|t.contents| - 1] == t.rows.items;
      }
    }
  }

  lemma {:induction false} RunIsNotOlder(steps: seq<Step>)
    ensures AllNotOlder(Run(steps))
  {
    if steps != [] {
      var front, last := steps[..|steps| - 1], steps[|steps| - 1];
      RunIsNotOlder(front);
      RunIsVersioned(front);
      RunIsVersioned(steps);
      assert front + [last] == steps;
      ContentChangesTakeNewVersions(front, last);
      StepIsNotOlder(Run(front), last);
    } else {
      assert Run(steps) == EMPTY;
    }
  }

  /** On every run, torn reads included, a pair shows the contents of its version or of a later one. */
  lemma {:induction false} CartsAreNeverOlderThanTheirVersion(steps: seq<Step>, c: Cart)
    requires Seen(Run(steps), c)
    ensures NotOlder(Run(steps).contents, c)
  {
    RunIsNotOlder(steps);
  }

  // ------------------------------------------------------------------ True carts

  /** The second SELECT of a reader finds other contents than the cart held at the version of its first. */
  ghost predicate Tears(s: State, step: Step) {
    && step.SelectItems? && step.reader in s.readers && s.readers[step.reader].HalfRead?
    && s.readers[step.reader].version < |s.contents|
    && s.rows.items != s.contents[s.readers[step.reader].version]
  }

  /** Some read of the run is torn. */
  ghost predicate Torn(steps: seq<Step>) {
    exists i :: 0 <= i < |steps| && Tears(Run(steps[..i]), steps[i])
  }

  lemma ListingTells(m: map<Id, int>, n: map<Id, int>)
    requires Listing(m) == Listing(n)
    ensures m == n
  {
    ListingLists(m);
    ListingLists(n);
    forall p ensures p in m <==> p in n {
      if p in m {
        assert Item(p, m[p]) in Listing(n);
      }
      if p in n {
        assert Item(p, n[p]) in Listing(m);
      }
    }
    forall p | p in m ensures m[p] == n[p] {
      assert Item(p, m[p]) in Listing(n);
    }
  }

  /** The pair a second SELECT completes is true to its version exactly when the cart then holds what it held at that
      version. */
  lemma {:induction false} PairIsTrueIffNotTorn(steps: seq<Step>, r: Id)
    requires r in Run(steps).readers && Run(steps).readers[r].HalfRead?
    ensures var s := Run(steps);
            True(s.contents, Cart(s.readers[r].version, Listing(s.rows.items))) <==> !Tears(s, SelectItems(r))
  {
    RunIsNotOlder(steps);
    var s := Run(steps);
    if Listing(s.rows.items) == Listing(s.contents[s.readers[r].version]) {
      ListingTells(s.rows.items, s.contents[s.readers[r].version]);
    }
  }

  /** In particular a read is not torn when the contents have not changed since its first SELECT. */
  lemma {:induction false} QuietReadsAreNotTorn(steps: seq<Step>, r: Id)
    requires r in Run(steps).readers && Run(steps).readers[r].HalfRead?
    requires var s := Run(steps);
             forall k :: s.readers[r].version <= k < |s.contents| ==> s.contents[k] == s.contents[s.readers[r].version]
    ensures !Tears(Run(steps), SelectItems(r))
  {
    RunIsVersioned(steps);
    RunIsNotOlder(steps);
  }

  ghost predicate AllTrue(s: State) {
    forall c :: Seen(s, c) ==> True(s.contents, c)
  }

  lemma StepIsTrue(s: State, step: Step)
    requires AllTrue(s) && AllNotOlder(s) && Versioned(Next(s, step)) && s.contents <= Next(s, step).contents && !Tears(s, step)
    ensures AllTrue(Next(s, step))
  {
    var t := Next(s, step);
    forall c | Seen(t, c) ensures True(t.contents, c) {
      if !Seen(s, c) {
        NewlySeen(s, step, c);
        RowsAreTrue(t);
      }
    }
  }

  lemma {:induction false} RunIsTrue(steps: seq<Step>)
    requires !Torn(steps)
    ensures AllTrue(Run(steps))
  {
    if steps == [] {
      assert Run(steps) == EMPTY;
    } else {
      var n := |steps| - 1;
      var front, last := steps[..n], steps[n];
      forall i | 0 <= i < n ensures !Tears(Run(front[..i]), front[i]) {
        assert front[..i] == steps[..i];
      }
      RunIsTrue(front);
      RunIsNotOlder(front);
      RunIsVersioned(steps);
      assert front + [last] == steps;
      ContentChangesTakeNewVersions(front, last);
      StepIsTrue(Run(front), last);
    }
  }

  lemma ReadsStay(s: State, step: Step, c: Cart)
    requires HasRead(s, c)
    ensures HasRead(Next(s, step), c)
  {
    var r :| r in s.readers && (s.readers[r].Fetched? || s.readers[r].Returned?) && s.readers[r].cart == c;
    assert r in Next(s, step).readers && Next(s, step).readers[r].cart == c;
  }

  /** A pair in some reader's hands that the cart never held at its version. */
  ghost predicate ReadFalse(s: State, c: Cart) {
    HasRead(s, c) && c.version < |s.contents| && !True(s.contents, c)
  }

  lemma ReadFalseStays(s: State, step: Step, c: Cart)
    requires ReadFalse(s, c) && s.contents <= Next(s, step).contents
    ensures ReadFalse(Next(s, step), c)
  {
    ReadsStay(s, step, c);
  }

  /** History never makes a false pair true. */
  lemma {:induction false} FalsePairsStay(steps: seq<Step>, n: nat, c: Cart)
    requires n <= |steps| && ReadFalse(Run(steps[..n]), c)
    ensures ReadFalse(Run(steps), c)
  {
    if n == |steps| {
      assert steps[..n] == steps;
    } else {
      var front, last := steps[..|steps| - 1], steps[|steps| - 1];
      assert front[..n] == steps[..n] && front + [last] == steps;
      FalsePairsStay(front, n, c);
      ContentChangesTakeNewVersions(front, last);
      ReadFalseStays(Run(front), last, c);
    }
  }

  /** Exactly when carts are true to their version: on every run all cached, in-flight and returned pairs are what the
      cart held at that version if and only if no read of the run was torn, however stale they are and whatever was
      lost. */
  lemma {:induction false} CartsAreTrueIffNoReadIsTorn(steps: seq<Step>)
    ensures (forall c :: Seen(Run(steps), c) ==> True(Run(steps).contents, c)) <==> !Torn(steps)
  {
    if !Torn(steps) {
      RunIsTrue(steps);
    } else {
      var i :| 0 <= i < |steps| && Tears(Run(steps[..i]), steps[i]);
      var c := TornPairStays(steps, i);
      assert Seen(Run(steps), c) && !True(Run(steps).contents, c);
    }
  }

  lemma TornPairIsReadFalse(steps: seq<Step>, step: Step) returns (c: Cart)
    requires Tears(Run(steps), step)
    ensures ReadFalse(Run(steps + [step]), c)
  {
    var s, r := Run(steps), step.reader;
    c := Cart(s.readers[r].version, Listing(s.rows.items));
    PairIsTrueIffNotTorn(steps, r);
    RunNext(steps, step);
    assert Next(s, step).readers[r] == Fetched(s.readers[r].caches, c);
  }

  lemma TornPairStays(steps: seq<Step>, i: nat) returns (c: Cart)
    requires i < |steps| && Tears(Run(steps[..i]), steps[i])
    ensures ReadFalse(Run(steps), c)
  {
    c := TornPairIsReadFalse(steps[..i], steps[i]);
    assert steps[..i] + [steps[i]] == steps[..i + 1];
    FalsePairsStay(steps, i + 1, c);
  }

  /** So, as long as no read is torn, the version the checkout compares identifies the contents. */
  lemma {:induction false} VersionIdentifiesContents(steps: seq<Step>, c: Cart, d: Cart)
    requires !Torn(steps) && Seen(Run(steps), c) && Seen(Run(steps), d) && c.version == d.version
    ensures c == d
  {
    RunIsTrue(steps);
  }

  // ------------------------------------------------------------------ A torn read

  lemma RunNext(steps: seq<Step>, step: Step)
    ensures Run(steps + [step]) == Next(Run(steps), step)
  {
    assert (steps + [step])[..|steps|] == steps;
  }

  /** A reader has read version 1 of a cart that holds one unit of product 1. */
  lemma HalfWay() returns (steps: seq<Step>)
    ensures 7 in Run(steps).readers && Run(steps).readers[7] == HalfRead(true, 1)
    ensures Run(steps).rows == Rows(Some(1), map[1 := 1]) && Run(steps).contents == [map[], map[1 := 1]]
  {
    var set1: seq<Step> := [Set(1, 1, true)];
    RunNext([], Set(1, 1, true));
    assert [] + [Set(1, 1, true)] == set1;
    assert Run(set1) == Written(EMPTY, Rows(Some(1), map[1 := 1]));
    RunNext(set1, Lookup(7, true));
    steps := set1 + [Lookup(7, true)];
    RunNext(steps, SelectVersion(7));
    steps := steps + [SelectVersion(7)];
  }

  /** Reads do get torn: a write between the SELECTs puts a pair into the cache that the cart never held. */
  lemma TornReadIsCached()
    ensures exists steps, c :: Run(steps).cache == Some(c) && !True(Run(steps).contents, c)
  {
    var half := HalfWay();
    RunNext(half, Set(1, 2, true));
    var torn := half + [Set(1, 2, true)];
    assert Run(torn).rows.items == map[1 := 2] && Run(torn).contents[1] == map[1 := 1];
    RunNext(torn, SelectItems(7));
    var read := torn + [SelectItems(7)];
    RunNext(read, Store(7, true));
    assert Run(read + [Store(7, true)]).cache == Some(Cart(1, Listing(map[1 := 2])));
    ListingsDiffer();
  }

  lemma ListingsDiffer()
    ensures Listing(map[1 := 1]) != Listing(map[1 := 2])
  {
    var m: map<Id, int> := map[1 := 1];
    var n: map<Id, int> := map[1 := 2];
    assert m[1] != n[1];
    if Listing(m) == Listing(n) {
      ListingTells(m, n);
    }
  }

  // ------------------------------------------------------------------ Calls without interference

  ghost function Reading(s: State, r: Id, readable: bool, stored: bool): State {
    Next(Next(Next(Next(s, Lookup(r, readable)), SelectVersion(r)), SelectItems(r)), Store(r, stored))
  }

  /** A `Get` that nothing interrupts, as steps of the machine: a usable cache entry is returned and kept; otherwise the
      rows are returned, and cached if that write works. */
  lemma {:induction false} GetIsARun(s: State, r: Id, readable: bool, stored: bool)
    requires r !in s.readers
    ensures var t := Reading(s, r, readable, stored);
            && r in t.readers && t.rows == s.rows && t.contents == s.contents && t.written == s.written
            && if readable && s.cache.Some? then t.readers[r] == Returned(s.cache.value) && t.cache == s.cache
               else t.readers[r] == Returned(CartOf(s.rows)) && t.cache == if stored then Some(CartOf(s.rows)) else s.cache
  {
  }

  /** A `SetItem` that nothing interrupts: the rows and answer are those of its transaction, and the cache entry is gone
      unless the delete was lost. */
  lemma {:induction false} SetItemIsARun(s: State, product: Id, quantity: int, commits: bool, lost: bool)
    requires Keyed(s.rows) && s.pending == 0
    ensures var t := Next(Next(s, Set(product, quantity, commits)), Invalidate(lost));
            && t.rows == SetTx(s.rows, product, quantity, commits) && t.readers == s.readers
            && if 1 <= quantity <= 99 && commits then t.written == s.written + [CartOf(t.rows)] && t.cache == if lost then s.cache else None
               else t == s
  {
    WritesRaiseTheVersion(s.rows, product, quantity, commits);
  }

  /** Likewise a `DeleteItem`; when it deletes nothing it answers with its own two SELECTs. */
  lemma {:induction false} DeleteItemIsARun(s: State, r: Id, product: Id, commits: bool, lost: bool)
    requires Keyed(s.rows) && s.pending == 0 && r !in s.readers
    ensures product in s.rows.items ==>
              var t := Next(Next(s, Delete(product, commits)), Invalidate(lost));
              && t.rows == DeleteTx(s.rows, product, commits) && t.readers == s.readers
              && if commits then t.written == s.written + [CartOf(t.rows)] && t.cache == if lost then s.cache else None else t == s
    ensures product !in s.rows.items ==>
              var t := Next(Next(Next(Next(Next(s, DeleteNothing(r, product)), SelectVersion(r)), SelectItems(r)), Store(r, false)), Invalidate(lost));
              && t.rows == s.rows && t.written == s.written && r in t.readers && t.readers[r] == Returned(CartOf(s.rows))
              && t.cache == if lost then s.cache else None
  {
    WritesRaiseTheVersion(s.rows, product, 1, commits);
  }
}
