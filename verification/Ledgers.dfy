/**
 What every run of `Reserve` and `Release` calls keeps: stock is conserved, responses are stable,
 a reservation gives its stock back at most once, and a first call decides exactly as documented.
 */
module Ledgers {
  import opened Prelude
  import opened Catalog

  /** One call as the service sees it. `commits` is false when the transaction is lost. */
  datatype Call =
    | ReserveCall(request: Request, newId: Id, now: int, commits: bool)
    | ReleaseCall(reservation: Id, commits: bool)

  ghost function Step(s: Ledger, call: Call): Ledger {
    match call
    case ReserveCall(request, newId, now, commits) => ReserveTx(s, request, newId, now, commits).0
    case ReleaseCall(reservation, commits) => ReleaseTx(s, reservation, commits).0
  }

  ghost function Run(s: Ledger, calls: seq<Call>): Ledger {
    if calls == [] then s else Step(Run(s, calls[..|calls| - 1]), calls[|calls| - 1])
  }

  // ------------------------------------------------------------------ Conservation of stock

  /** What an active reservation holds of a product. */
  ghost function Share(s: Ledger, r: Id, product: Id): int
    requires r in s.reservations
  {
    if s.reservations[r].status == Active && product in RowsOf(s, r) then RowsOf(s, r)[product] else 0
  }

  ghost function Shares(s: Ledger, product: Id): map<Id, int> {
    map r | r in s.reservations :: Share(s, r, product)
  }

  /** What all active reservations together hold of a product. */
  ghost function Held(s: Ledger, product: Id): int {
    Total(Shares(s, product))
  }

  ghost predicate Sound(s: Ledger) {
    && UniqueAttempts(s.reservations)
    && s.items.Keys <= s.reservations.Keys
    && (forall p :: p in s.products ==> s.products[p].available >= 0)
    && (forall r, p :: r in s.items && p in s.items[r] ==> s.items[r][p] > 0)
  }

  lemma {:induction false} TakenIsRow(items: seq<ReservedItem>, product: Id)
    requires Insertable(items)
    ensures Taken(items, product) == if product in ItemRows(items) then ItemRows(items)[product] else 0
    ensures product in ItemRows(items) ==> exists i :: 0 <= i < |items| && items[i].product == product && ItemRows(items)[product] == items[i].quantity
  {
    if items != [] {
      var rest, last := items[..|items| - 1], items[|items| - 1];
      TakenIsRow(rest, product);
      if last.product == product {
        TakenAbsent(rest, product);
        assert items[|rest|].product == product && ItemRows(items)[product] == items[|rest|].quantity;
      } else if product in ItemRows(rest) {
        var i :| 0 <= i < |rest| && rest[i].product == product && ItemRows(rest)[product] == rest[i].quantity;
        assert items[i].product == product && ItemRows(items)[product] == items[i].quantity;
      }
    }
  }

  /** Writing one reservation row changes what is held by that row's share alone. */
  lemma HeldWrite(s: Ledger, t: Ledger, r: Id, product: Id)
    requires r in t.reservations && t.reservations.Keys == s.reservations.Keys + {r}
    requires forall q :: q in s.reservations && q != r ==> Share(t, q, product) == Share(s, q, product)
    ensures Held(t, product) == Held(s, product) + Share(t, r, product) - if r in s.reservations then Share(s, r, product) else 0
  {
    assert Shares(t, product) == Shares(s, product)[r := Share(t, r, product)];
    TotalWrite(Shares(s, product), r, Share(t, r, product));
  }

  ghost predicate Balanced(s: Ledger, t: Ledger) {
    && t.products.Keys == s.products.Keys
    && forall p :: p in s.products ==> t.products[p].available + Held(t, p) == s.products[p].available + Held(s, p)
  }

  ghost predicate Covered(products: map<Id, Product>, items: seq<ReservedItem>) {
    forall i :: 0 <= i < |items| ==>
                  items[i].product in products && items[i].quantity <= products[items[i].product].available
  }

  lemma RecordedOne(s: Ledger, request: Request, response: Response, p: Id)
    requires Sound(s) && p in s.products && response.reservation !in s.reservations
    requires Insertable(response.items) && Covered(s.products, response.items)
    requires response.status != Active ==> response.items == []
    ensures var t := Recorded(s, request, response);
            && t.products[p].available >= 0
            && t.products[p].available + Held(t, p) == s.products[p].available + Held(s, p)
  {
    var t := Recorded(s, request, response);
    TakenIsRow(response.items, p);
    HeldWrite(s, t, response.reservation, p);
  }

  lemma RecordedConserves(s: Ledger, request: Request, response: Response)
    requires Sound(s) && response.reservation !in s.reservations
    requires forall r :: r in s.reservations ==> s.reservations[r].attempt != request.attempt
    requires Insertable(response.items) && Covered(s.products, response.items)
    requires response.status != Active ==> response.items == []
    ensures Sound(Recorded(s, request, response)) && Balanced(s, Recorded(s, request, response))
  {
    var t := Recorded(s, request, response);
    assert t.products.Keys == s.products.Keys;
    forall p | p in s.products
      ensures t.products[p].available >= 0
      ensures t.products[p].available + Held(t, p) == s.products[p].available + Held(s, p)
    {
      RecordedOne(s, request, response, p);
    }
    RecordedRows(s, request, response);
  }

  lemma RecordedRows(s: Ledger, request: Request, response: Response)
    requires Sound(s) && response.reservation !in s.reservations
    requires forall r :: r in s.reservations ==> s.reservations[r].attempt != request.attempt
    requires Insertable(response.items)
    ensures var t := Recorded(s, request, response);
            && UniqueAttempts(t.reservations) && t.items.Keys <= t.reservations.Keys
            && forall r, p :: r in t.items && p in t.items[r] ==> t.items[r][p] > 0
  {
    forall p | p in ItemRows(response.items) ensures ItemRows(response.items)[p] > 0 {
      TakenIsRow(response.items, p);
    }
  }

  lemma ReleasedOne(s: Ledger, reservation: Id, p: Id)
    requires Sound(s) && p in s.products && reservation in s.reservations && s.reservations[reservation].status == Active
    ensures var t := ReleaseTx(s, reservation, true).0;
            && t.products[p].available >= 0
            && t.products[p].available + Held(t, p) == s.products[p].available + Held(s, p)
  {
    HeldWrite(s, ReleaseTx(s, reservation, true).0, reservation, p);
  }

  lemma ReleasedConserves(s: Ledger, reservation: Id)
    requires Sound(s) && reservation in s.reservations && s.reservations[reservation].status == Active
    ensures Sound(ReleaseTx(s, reservation, true).0) && Balanced(s, ReleaseTx(s, reservation, true).0)
  {
    var t := ReleaseTx(s, reservation, true).0;
    assert t.products.Keys == s.products.Keys;
    forall p | p in s.products
      ensures t.products[p].available >= 0
      ensures t.products[p].available + Held(t, p) == s.products[p].available + Held(s, p)
    {
      ReleasedOne(s, reservation, p);
    }
  }

  lemma StepConserves(s: Ledger, call: Call)
    requires Sound(s)
    ensures Sound(Step(s, call)) && Balanced(s, Step(s, call))
  {
    if Step(s, call) != s {
      match call
      case ReserveCall(request, newId, now, commits) =>
        PickedAvailable(s.products, SortLines(request.lines));
        RecordedConserves(s, request, Decide(s.products, request, newId, now));
      case ReleaseCall(reservation, commits) =>
        ReleasedConserves(s, reservation);
    }
  }

  /** Every run, with repeats and lost transactions, keeps available + held of every product, and never goes negative. */
  lemma {:induction false} StockConserved(s: Ledger, calls: seq<Call>)
    requires Sound(s)
    ensures Sound(Run(s, calls)) && Balanced(s, Run(s, calls))
    ensures forall p :: p in s.products ==> Run(s, calls).products[p].available >= 0
  {
    if calls != [] {
      StockConserved(s, calls[..|calls| - 1]);
      StepConserves(Run(s, calls[..|calls| - 1]), calls[|calls| - 1]);
    }
  }

  lemma HeldIsNonNegative(s: Ledger, p: Id)
    requires Sound(s)
    ensures Held(s, p) >= 0
  {
    assert forall r :: r in Shares(s, p) ==> Shares(s, p)[r] >= 0;
  }

  ghost function Opening(products: map<Id, Product>): Ledger {
    Ledger(products, map[], map[], [])
  }

  /** From an empty reservation table: what is on the shelf plus what is held is the initial stock. */
  lemma StockConservedFromOpening(products: map<Id, Product>, calls: seq<Call>, p: Id)
    requires p in products
    requires forall q :: q in products ==> products[q].available >= 0
    ensures var t := Run(Opening(products), calls);
            && p in t.products
            && t.products[p].available + Held(t, p) == products[p].available
            && 0 <= t.products[p].available <= products[p].available
  {
    var s := Opening(products);
    StockConserved(s, calls);
    HeldIsNonNegative(Run(s, calls), p);
    assert Shares(s, p).Keys == {};
  }

  // ------------------------------------------------------------------ Stability of reservations

  /** Reservations are never lost, answers and item rows never change, and status only moves from active to released. */
  ghost predicate Evolved(s: Ledger, t: Ledger) {
    forall r :: r in s.reservations ==>
                  && r in t.reservations
                  && t.reservations[r].attempt == s.reservations[r].attempt
                  && t.reservations[r].response == s.reservations[r].response
                  && RowsOf(t, r) == RowsOf(s, r)
                  && (t.reservations[r].status == s.reservations[r].status
                      || (s.reservations[r].status == Active && t.reservations[r].status == Released))
  }

  lemma ReserveEvolves(s: Ledger, request: Request, newId: Id, now: int, commits: bool)
    ensures Evolved(s, ReserveTx(s, request, newId, now, commits).0)
  {
    var t := ReserveTx(s, request, newId, now, commits).0;
    if t != s {
      RecordedEvolves(s, request, Decide(s.products, request, newId, now));
    }
  }

  lemma RecordedEvolves(s: Ledger, request: Request, response: Response)
    requires response.reservation !in s.reservations
    ensures Evolved(s, Recorded(s, request, response))
  {
  }

  lemma ReleaseEvolves(s: Ledger, reservation: Id, commits: bool)
    ensures Evolved(s, ReleaseTx(s, reservation, commits).0)
  {
    var t := ReleaseTx(s, reservation, commits).0;
    assert t.items == s.items;
  }

  lemma StepEvolves(s: Ledger, call: Call)
    ensures Evolved(s, Step(s, call))
  {
    if call.ReserveCall? {
      ReserveEvolves(s, call.request, call.newId, call.now, call.commits);
    } else {
      ReleaseEvolves(s, call.reservation, call.commits);
    }
  }

  lemma {:induction false} RunEvolves(s: Ledger, calls: seq<Call>)
    ensures Evolved(s, Run(s, calls))
  {
    if calls != [] {
      RunEvolves(s, calls[..|calls| - 1]);
      StepEvolves(Run(s, calls[..|calls| - 1]), calls[|calls| - 1]);
    }
  }

  /** Any number of calls for one attempt equals one call: later calls, whatever they ask, change nothing and repeat the answer. */
  lemma ReserveIsIdempotent(s: Ledger, request: Request, newId: Id, now: int, commits: bool, calls: seq<Call>, again: Request, otherId: Id, later: int, otherCommits: bool)
    requires Sound(s)
    requires ReserveTx(s, request, newId, now, commits).1.Answered?
    requires again.attempt == request.attempt
    ensures var (s1, reply) := ReserveTx(s, request, newId, now, commits);
            ReserveTx(Run(s1, calls), again, otherId, later, otherCommits) == (Run(s1, calls), reply)
  {
    var (s1, reply) := ReserveTx(s, request, newId, now, commits);
    assert s1 == Step(s, ReserveCall(request, newId, now, commits));
    StepConserves(s, ReserveCall(request, newId, now, commits));
    RunEvolves(s1, calls);
    StockConserved(s1, calls);
    var r := Lookup(s1.reservations, request.attempt);
    assert r.Some? by {
      if Lookup(s.reservations, request.attempt).None? {
        assert s1.reservations[newId].attempt == request.attempt;
      }
    }
    var t := Run(s1, calls);
    assert t.reservations[r.value].attempt == request.attempt && t.reservations[r.value].response == reply.response;
  }

  ghost predicate GivesBack(s: Ledger, call: Call, r: Id) {
    call == ReleaseCall(r, true) && r in s.reservations && s.reservations[r].status == Active
  }

  /** How many calls of a run returned the stock of a reservation. */
  ghost function GiveBacks(s: Ledger, calls: seq<Call>, r: Id): nat {
    if calls == [] then 0
    else
      var rest := calls[..|calls| - 1];
      GiveBacks(s, rest, r) + if GivesBack(Run(s, rest), calls[|calls| - 1], r) then 1 else 0
  }

  ghost predicate IsReleased(s: Ledger, r: Id) {
    r in s.reservations && s.reservations[r].status == Released
  }

  lemma OnlyGiveBacksRelease(s: Ledger, call: Call, r: Id)
    ensures GivesBack(s, call, r) <==> !IsReleased(s, r) && IsReleased(Step(s, call), r)
  {
  }

  /** Stock is given back at most once, exactly when the run released the reservation. */
  lemma {:induction false} GivenBackAtMostOnce(s: Ledger, calls: seq<Call>, r: Id)
    ensures GiveBacks(s, calls, r) <= 1
    ensures GiveBacks(s, calls, r) == 1 <==> !IsReleased(s, r) && IsReleased(Run(s, calls), r)
    ensures IsReleased(s, r) ==> IsReleased(Run(s, calls), r)
  {
    if calls != [] {
      var rest, last := calls[..|calls| - 1], calls[|calls| - 1];
      GivenBackAtMostOnce(s, rest, r);
      StepEvolves(Run(s, rest), last);
      OnlyGiveBacksRelease(Run(s, rest), last, r);
    }
  }

  // ------------------------------------------------------------------ Sorting

  ghost predicate BySpelling(lines: seq<Line>) {
    forall i, j :: 0 <= i < j < |lines| ==> lines[i].spelling <= lines[j].spelling
  }

  lemma {:induction false} InsertPermutes(line: Line, sorted: seq<Line>)
    ensures multiset(InsertLine(line, sorted)) == multiset{line} + multiset(sorted)
  {
    if sorted != [] && line.spelling > sorted[0].spelling {
      InsertPermutes(line, sorted[1..]);
      assert sorted == [sorted[0]] + sorted[1..];
    }
  }

  lemma {:induction false} InsertSorts(line: Line, sorted: seq<Line>)
    requires BySpelling(sorted)
    ensures BySpelling(InsertLine(line, sorted))
    ensures forall k :: 0 <= k <= |sorted| ==>
                          InsertLine(line, sorted)[k].spelling >= if sorted == [] || line.spelling <= sorted[0].spelling then line.spelling else sorted[0].spelling
  {
    if sorted != [] && line.spelling > sorted[0].spelling {
      InsertSorts(line, sorted[1..]);
    }
  }

  /** Sorting orders by text and only permutes. */
  lemma {:induction false} SortSorts(lines: seq<Line>)
    ensures BySpelling(SortLines(lines))
    ensures multiset(SortLines(lines)) == multiset(lines)
  {
    if lines != [] {
      SortSorts(lines[1..]);
      InsertSorts(lines[0], SortLines(lines[1..]));
      InsertPermutes(lines[0], SortLines(lines[1..]));
      assert lines == [lines[0]] + lines[1..];
    }
  }

  lemma SortMembers(lines: seq<Line>)
    ensures forall l :: l in SortLines(lines) <==> l in lines
  {
    SortSorts(lines);
    forall l ensures l in SortLines(lines) <==> l in lines {
      assert l in SortLines(lines) <==> l in multiset(SortLines(lines));
      assert l in lines <==> l in multiset(lines);
    }
  }

  ghost predicate SameRow(lines: seq<Line>) {
    exists i, j :: 0 <= i < j < |lines| && lines[i].product == lines[j].product
  }

  lemma {:induction false} TwiceMeansTwoPlaces(lines: seq<Line>, l: Line)
    requires multiset(lines)[l] >= 2
    ensures SameRow(lines)
  {
    var rest := lines[..|lines| - 1];
    assert lines == rest + [lines[|lines| - 1]];
    if lines[|lines| - 1] == l {
      assert l in multiset(rest);
      var a :| 0 <= a < |rest| && rest[a] == l;
      assert lines[a].product == lines[|rest|].product;
    } else {
      TwiceMeansTwoPlaces(rest, l);
      var i, j :| 0 <= i < j < |rest| && rest[i].product == rest[j].product;
      assert lines[i].product == lines[j].product;
    }
  }

  lemma TwoPlacesMeanTwice(lines: seq<Line>, i: nat, j: nat)
    requires i < j < |lines| && lines[i] == lines[j]
    ensures multiset(lines)[lines[i]] >= 2
  {
    assert lines == lines[..j] + [lines[j]] + lines[j + 1..];
    assert lines[i] in lines[..j];
    assert multiset(lines[..j])[lines[i]] >= 1;
  }

  /** A permutation has two lines on one row if the original has. */
  lemma SameRowPermutes(lines: seq<Line>, sorted: seq<Line>)
    requires multiset(lines) == multiset(sorted) && SameRow(lines)
    ensures SameRow(sorted)
  {
    var i, j :| 0 <= i < j < |lines| && lines[i].product == lines[j].product;
    if lines[i] == lines[j] {
      TwoPlacesMeanTwice(lines, i, j);
      TwiceMeansTwoPlaces(sorted, lines[i]);
    } else {
      assert lines[i] in multiset(sorted) && lines[j] in multiset(sorted);
      var a :| 0 <= a < |sorted| && sorted[a] == lines[i];
      var b :| 0 <= b < |sorted| && sorted[b] == lines[j];
      assert sorted[a].product == sorted[b].product;
      assert a < b || b < a;
    }
  }

  // ------------------------------------------------------------------ What a first call decides

  /** A line can be served: its row is there, is for sale, and holds enough. */
  ghost predicate Served(products: map<Id, Product>, l: Line) {
    l.product in products && products[l.product].active && products[l.product].available >= l.quantity
  }

  ghost predicate AllServed(products: map<Id, Product>, lines: seq<Line>) {
    forall l :: l in lines ==> Served(products, l)
  }

  ghost predicate MixedCurrency(products: map<Id, Product>, lines: seq<Line>) {
    exists l, m :: l in lines && m in lines && Served(products, l) && Served(products, m)
                   && products[l.product].currency != products[m.product].currency
  }

  lemma {:induction false} PickedMembers(products: map<Id, Product>, lines: seq<Line>)
    ensures forall l :: l in lines && Fulfillable(products, l) ==> ItemOf(products, l) in Picked(products, lines)
    ensures forall item :: item in Picked(products, lines) ==>
                             exists l :: l in lines && Fulfillable(products, l) && item == ItemOf(products, l)
  {
    if lines != [] {
      var rest, last := lines[..|lines| - 1], lines[|lines| - 1];
      PickedMembers(products, rest);
      assert lines == rest + [last];
      forall l | l in lines && Fulfillable(products, l) ensures ItemOf(products, l) in Picked(products, lines) {
        assert l in rest || l == last;
      }
    }
  }

  lemma {:induction false} ShortageMembers(products: map<Id, Product>, lines: seq<Line>)
    ensures forall l :: l in lines && !Fulfillable(products, l) ==> ShortageOf(products, l) in Shortages(products, lines)
    ensures forall sh :: sh in Shortages(products, lines) ==>
                           exists l :: l in lines && !Fulfillable(products, l) && sh == ShortageOf(products, l)
  {
    if lines != [] {
      var rest, last := lines[..|lines| - 1], lines[|lines| - 1];
      ShortageMembers(products, rest);
      assert lines == rest + [last];
      forall l | l in lines && !Fulfillable(products, l) ensures ShortageOf(products, l) in Shortages(products, lines) {
        assert l in rest || l == last;
      }
    }
  }

  lemma {:induction false} AllServedItems(products: map<Id, Product>, lines: seq<Line>)
    requires AllServed(products, lines)
    ensures |Picked(products, lines)| == |lines| && Shortages(products, lines) == []
    ensures forall i :: 0 <= i < |lines| ==> lines[i].product in products && Picked(products, lines)[i] == ItemOf(products, lines[i])
  {
    if lines != [] {
      var rest := lines[..|lines| - 1];
      assert forall l :: l in rest ==> l in lines;
      AllServedItems(products, rest);
      assert lines[|rest|] in lines;
    }
  }

  lemma CurrencyDecision(products: map<Id, Product>, lines: seq<Line>)
    ensures SingleCurrency(Picked(products, SortLines(lines))) <==> !MixedCurrency(products, lines)
  {
    var items := Picked(products, SortLines(lines));
    SortMembers(lines);
    PickedMembers(products, SortLines(lines));
    if MixedCurrency(products, lines) {
      var l, m :| l in lines && m in lines && Fulfillable(products, l) && Fulfillable(products, m)
                  && products[l.product].currency != products[m.product].currency;
      assert l in SortLines(lines) && m in SortLines(lines);
      var i :| 0 <= i < |items| && items[i] == ItemOf(products, l);
      var j :| 0 <= j < |items| && items[j] == ItemOf(products, m);
      assert items[i].currency != items[j].currency;
    }
    if !SingleCurrency(items) {
      var i, j :| 0 <= i < |items| && 0 <= j < |items| && items[i].currency != items[j].currency;
      assert items[i] in items && items[j] in items;
      var l :| l in SortLines(lines) && Fulfillable(products, l) && items[i] == ItemOf(products, l);
      var m :| m in SortLines(lines) && Fulfillable(products, m) && items[j] == ItemOf(products, m);
      assert l in lines && m in lines;
    }
  }

  lemma ShortageDecision(products: map<Id, Product>, lines: seq<Line>)
    ensures Shortages(products, SortLines(lines)) == [] <==> AllServed(products, lines)
  {
    SortMembers(lines);
    ShortageMembers(products, SortLines(lines));
    if AllServed(products, lines) {
      AllServedItems(products, SortLines(lines));
    } else {
      var l :| l in lines && !Fulfillable(products, l);
      assert ShortageOf(products, l) in Shortages(products, SortLines(lines));
    }
  }

  lemma DistinctDecision(products: map<Id, Product>, lines: seq<Line>)
    requires AllServed(products, lines)
    ensures DistinctRows(Picked(products, lines)) <==> !SameRow(lines)
  {
    AllServedItems(products, lines);
    var items := Picked(products, lines);
    assert forall i :: 0 <= i < |lines| ==> items[i].product == lines[i].product;
    if SameRow(lines) {
      var i, j :| 0 <= i < j < |lines| && lines[i].product == lines[j].product;
      assert items[i].product == items[j].product;
    }
    if !DistinctRows(items) {
      var i, j :| 0 <= i < j < |items| && items[i].product == items[j].product;
      assert lines[i].product == lines[j].product;
    }
  }

  lemma RowDecision(products: map<Id, Product>, lines: seq<Line>)
    requires AllServed(products, lines)
    requires forall l :: l in lines ==> l.quantity > 0
    ensures Insertable(Picked(products, SortLines(lines))) <==> !SameRow(lines)
  {
    var sorted := SortLines(lines);
    SortSorts(lines);
    SortMembers(lines);
    DistinctDecision(products, sorted);
    if SameRow(lines) {
      SameRowPermutes(lines, sorted);
    } else if SameRow(sorted) {
      SameRowPermutes(sorted, lines);
    }
    AllServedItems(products, sorted);
    forall i | 0 <= i < |sorted| ensures Picked(products, sorted)[i].quantity > 0 {
      assert sorted[i] in sorted;
    }
  }

  lemma ValidQuantities(request: Request)
    requires Valid(request)
    ensures forall l :: l in request.lines ==> 1 <= l.quantity <= MAX_QUANTITY
  {
  }

  /** The complete decision table of a first, committed call with a validated request. */
  lemma ReserveDecides(s: Ledger, request: Request, newId: Id, now: int)
    requires Valid(request) && Lookup(s.reservations, request.attempt).None? && newId !in s.reservations
    ensures var (t, reply) := ReserveTx(s, request, newId, now, true);
            if MixedCurrency(s.products, request.lines) then (t, reply) == (s, Faulted(MixedCurrencies))
            else if AllServed(s.products, request.lines) && SameRow(request.lines) then (t, reply) == (s, Faulted(ConstraintViolated))
            else
              && reply.Answered?
              && reply.response.reservation == newId
              && (reply.response.status == Active <==> AllServed(s.products, request.lines))
              && (reply.response.status == Failed <==> !AllServed(s.products, request.lines))
  {
    CurrencyDecision(s.products, request.lines);
    ShortageDecision(s.products, request.lines);
    ValidQuantities(request);
    if AllServed(s.products, request.lines) {
      RowDecision(s.products, request.lines);
    }
  }

  lemma ServedLine(products: map<Id, Product>, lines: seq<Line>, l: Line)
    requires AllServed(products, lines) && Insertable(Picked(products, lines)) && l in lines
    ensures l.product in ItemRows(Picked(products, lines))
    ensures ItemRows(Picked(products, lines))[l.product] == l.quantity == Taken(Picked(products, lines), l.product)
  {
    var items := Picked(products, lines);
    AllServedItems(products, lines);
    var k :| 0 <= k < |lines| && lines[k] == l;
    assert items[k].product == l.product && items[k].quantity == l.quantity;
    ItemRowsKeys(items);
    TakenIsRow(items, l.product);
  }

  lemma UnservedRow(products: map<Id, Product>, lines: seq<Line>, p: Id)
    requires AllServed(products, lines) && forall l :: l in lines ==> l.product != p
    ensures p !in ItemRows(Picked(products, lines)) && Taken(Picked(products, lines), p) == 0
  {
    var items := Picked(products, lines);
    AllServedItems(products, lines);
    forall i | 0 <= i < |items| ensures items[i].product != p {
      assert lines[i] in lines;
    }
    TakenAbsent(items, p);
    ItemRowsKeys(items);
  }

  /** The rows and item rows an active answer leaves behind. */
  ghost predicate TookTheLines(s: Ledger, t: Ledger, lines: seq<Line>, reservation: Id) {
    && t.products.Keys == s.products.Keys
    && (forall l :: l in lines ==> TookLine(s.products, t.products, RowsOf(t, reservation), l))
    && (forall p :: p in s.products && (forall l :: l in lines ==> l.product != p) ==>
                      p in t.products && t.products[p] == s.products[p] && p !in RowsOf(t, reservation))
  }

  ghost predicate TookLine(products: map<Id, Product>, after: map<Id, Product>, rows: map<Id, int>, l: Line) {
    && l.product in products && l.product in after
    && after[l.product] == products[l.product].(available := products[l.product].available - l.quantity)
    && l.product in rows && rows[l.product] == l.quantity
  }

  lemma PickedTakesLine(products: map<Id, Product>, sorted: seq<Line>, l: Line)
    requires AllServed(products, sorted) && Insertable(Picked(products, sorted)) && l in sorted
    ensures TookLine(products, Decremented(products, Picked(products, sorted)), ItemRows(Picked(products, sorted)), l)
  {
    ServedLine(products, sorted, l);
  }

  lemma PickedTakesTheLines(s: Ledger, t: Ledger, sorted: seq<Line>, reservation: Id)
    requires AllServed(s.products, sorted) && Insertable(Picked(s.products, sorted))
    requires t.products == Decremented(s.products, Picked(s.products, sorted))
    requires RowsOf(t, reservation) == ItemRows(Picked(s.products, sorted))
    ensures TookTheLines(s, t, sorted, reservation)
  {
    forall l | l in sorted ensures TookLine(s.products, t.products, RowsOf(t, reservation), l) {
      PickedTakesLine(s.products, sorted, l);
    }
    forall p | p in s.products && (forall l :: l in sorted ==> l.product != p)
      ensures t.products[p] == s.products[p] && p !in RowsOf(t, reservation)
    {
      UnservedRow(s.products, sorted, p);
    }
  }

  lemma FirstAnswerIsRecorded(s: Ledger, request: Request, newId: Id, now: int)
    requires Lookup(s.reservations, request.attempt).None? && ReserveTx(s, request, newId, now, true).1.Answered?
    ensures ReserveTx(s, request, newId, now, true).0 == Recorded(s, request, Decide(s.products, request, newId, now))
    ensures ReserveTx(s, request, newId, now, true).1.response == Decide(s.products, request, newId, now)
    ensures Insertable(Decide(s.products, request, newId, now).items)
  {
  }

  lemma ActiveResponse(products: map<Id, Product>, request: Request, newId: Id, now: int)
    requires Decide(products, request, newId, now).status == Active
    ensures Decide(products, request, newId, now).items == Picked(products, SortLines(request.lines))
    ensures Decide(products, request, newId, now).reservation == newId
    ensures Shortages(products, SortLines(request.lines)) == []
  {
  }

  lemma RecordedTakes(s: Ledger, request: Request, response: Response)
    requires response.status == Active
    ensures Recorded(s, request, response).products == Decremented(s.products, response.items)
    ensures RowsOf(Recorded(s, request, response), response.reservation) == ItemRows(response.items)
  {
  }

  lemma ActiveIsRecorded(s: Ledger, request: Request, newId: Id, now: int)
    requires Lookup(s.reservations, request.attempt).None?
    requires ReserveTx(s, request, newId, now, true).1.Answered?
    requires ReserveTx(s, request, newId, now, true).1.response.status == Active
    ensures var t, items := ReserveTx(s, request, newId, now, true).0, Picked(s.products, SortLines(request.lines));
            && t.products == Decremented(s.products, items) && RowsOf(t, newId) == ItemRows(items) && Insertable(items)
            && Shortages(s.products, SortLines(request.lines)) == []
  {
    FirstAnswerIsRecorded(s, request, newId, now);
    ActiveResponse(s.products, request, newId, now);
    RecordedTakes(s, request, Decide(s.products, request, newId, now));
  }

  /** An active answer moves exactly the requested quantity of each requested row, and of no other row. */
  lemma ActiveTakesTheLines(s: Ledger, request: Request, newId: Id, now: int)
    requires Valid(request) && Lookup(s.reservations, request.attempt).None? && newId !in s.reservations
    requires ReserveTx(s, request, newId, now, true).1.Answered?
    requires ReserveTx(s, request, newId, now, true).1.response.status == Active
    ensures TookTheLines(s, ReserveTx(s, request, newId, now, true).0, request.lines, newId)
  {
    var t := ReserveTx(s, request, newId, now, true).0;
    ActiveIsRecorded(s, request, newId, now);
    ShortageDecision(s.products, request.lines);
    TakesByMembers(s, t, request.lines, newId);
  }

  lemma TakesByMembers(s: Ledger, t: Ledger, lines: seq<Line>, reservation: Id)
    requires AllServed(s.products, lines) && Insertable(Picked(s.products, SortLines(lines)))
    requires t.products == Decremented(s.products, Picked(s.products, SortLines(lines)))
    requires RowsOf(t, reservation) == ItemRows(Picked(s.products, SortLines(lines)))
    ensures TookTheLines(s, t, lines, reservation)
  {
    SortMembers(lines);
    PickedTakesTheLines(s, t, SortLines(lines), reservation);
  }

  /** Every product id is spelled as PostgreSQL prints it, so texts order and identify rows. */
  ghost predicate Canonical(lines: seq<Line>) {
    forall l :: l in lines ==> l.spelling == l.product
  }

  lemma CanonicalRows(request: Request)
    requires Valid(request) && Canonical(request.lines)
    ensures !SameRow(request.lines)
  {
    var lines := request.lines;
    forall i, j | 0 <= i < j < |lines| ensures lines[i].product != lines[j].product {
      assert lines[i] in lines && lines[j] in lines;
    }
  }

  /** Canonical requests touch their rows in strictly increasing id order. */
  lemma CanonicalAscends(request: Request)
    requires Valid(request) && Canonical(request.lines)
    ensures forall i, j :: 0 <= i < j < |request.lines| ==> SortLines(request.lines)[i].product < SortLines(request.lines)[j].product
  {
    var lines, sorted := request.lines, SortLines(request.lines);
    SortSorts(lines);
    SortMembers(lines);
    CanonicalRows(request);
    assert !SameRow(sorted) by {
      if SameRow(sorted) {
        SameRowPermutes(sorted, lines);
      }
    }
    forall i, j | 0 <= i < j < |sorted| ensures sorted[i].product < sorted[j].product {
      assert sorted[i] in sorted && sorted[j] in sorted;
      assert sorted[i].product != sorted[j].product;
    }
  }

  ghost predicate Ascending(shortages: seq<Shortage>) {
    forall i, j :: 0 <= i < j < |shortages| ==> shortages[i].product < shortages[j].product
  }

  lemma {:induction false} ShortagesAscend(products: map<Id, Product>, lines: seq<Line>)
    requires forall i, j :: 0 <= i < j < |lines| ==> lines[i].product < lines[j].product
    ensures Ascending(Shortages(products, lines))
    ensures forall sh :: sh in Shortages(products, lines) ==> lines != [] && sh.product <= lines[|lines| - 1].product
  {
    if lines != [] {
      var rest, last := lines[..|lines| - 1], lines[|lines| - 1];
      ShortagesAscend(products, rest);
      forall sh | sh in Shortages(products, rest) ensures sh.product < last.product {
        assert rest[|rest| - 1] == lines[|rest| - 1];
      }
    }
  }

  /** What is reported of a line that cannot be served: what was asked, and what a row for sale holds, else nothing. */
  ghost predicate Reports(products: map<Id, Product>, l: Line, sh: Shortage) {
    && sh.product == l.product
    && sh.requested == l.quantity
    && (l.product in products && products[l.product].active ==> sh.available == products[l.product].available)
    && (l.product !in products || !products[l.product].active ==> sh.available == 0)
  }

  /** A failed answer moves no stock; its shortages report exactly the lines that cannot be served, in id order when the
      ids are canonical. */
  lemma {:induction false} FailedReportsTheFailingLines(s: Ledger, request: Request, newId: Id, now: int)
    requires Valid(request) && Lookup(s.reservations, request.attempt).None?
    requires ReserveTx(s, request, newId, now, true).1.Answered?
    requires ReserveTx(s, request, newId, now, true).1.response.status == Failed
    ensures var (t, reply) := ReserveTx(s, request, newId, now, true);
            && t.products == s.products && t.items == s.items
            && (forall sh :: sh in reply.response.shortages <==>
                               exists l :: l in request.lines && !Served(s.products, l) && Reports(s.products, l, sh))
            && (Canonical(request.lines) ==> Ascending(reply.response.shortages))
            && reply.response.items == [] && reply.response.total == 0
            && reply.response.currency == None && reply.response.expiresAt == None
  {
    var sorted := SortLines(request.lines);
    SortMembers(request.lines);
    ShortageMembers(s.products, sorted);
    assert Decremented(s.products, []) == s.products;
    if Canonical(request.lines) {
      CanonicalAscends(request);
      ShortagesAscend(s.products, sorted);
    }
    var shortages := Shortages(s.products, sorted);
    assert ReserveTx(s, request, newId, now, true).1.response.shortages == shortages;
    forall l, sh | l in request.lines && !Served(s.products, l) && Reports(s.products, l, sh) ensures sh in shortages {
      assert l in sorted && sh == ShortageOf(s.products, l);
    }
    forall sh | sh in shortages ensures exists l :: l in request.lines && !Served(s.products, l) && Reports(s.products, l, sh) {
      var l :| l in sorted && !Fulfillable(s.products, l) && sh == ShortageOf(s.products, l);
      assert l in request.lines && !Served(s.products, l) && Reports(s.products, l, sh);
    }
  }

  /** The item shows its line and the row of that line. */
  ghost predicate Shows(products: map<Id, Product>, l: Line, item: ReservedItem) {
    && l.product in products
    && item.product == l.product && item.quantity == l.quantity
    && item.name == products[l.product].name
    && item.price == products[l.product].price
    && item.currency == products[l.product].currency
  }

  lemma PickedShowsTheLines(products: map<Id, Product>, sorted: seq<Line>)
    requires AllServed(products, sorted)
    ensures |Picked(products, sorted)| == |sorted|
    ensures forall i :: 0 <= i < |sorted| ==> Shows(products, sorted[i], Picked(products, sorted)[i])
  {
    AllServedItems(products, sorted);
  }

  lemma ActiveMeansServed(products: map<Id, Product>, request: Request, newId: Id, now: int)
    requires Decide(products, request, newId, now).status == Active
    ensures AllServed(products, SortLines(request.lines)) && |SortLines(request.lines)| == |request.lines|
  {
    ActiveResponse(products, request, newId, now);
    ShortageDecision(products, request.lines);
    SortMembers(request.lines);
  }

  ghost predicate AnswersActive(products: map<Id, Product>, request: Request, newId: Id, now: int, r: Response) {
    var sorted := SortLines(request.lines);
    && |r.items| == |sorted| == |request.lines|
    && (forall i :: 0 <= i < |sorted| ==> Shows(products, sorted[i], r.items[i]))
    && (forall i :: 0 <= i < |sorted| ==> r.currency == Some(r.items[i].currency))
    && r.shortages == [] && r.reservation == newId && r.expiresAt == Some(now + request.ttlSeconds)
    && TotalsUp(r.items, r.total)
  }

  lemma ListsTheLines(products: map<Id, Product>, request: Request, newId: Id, now: int, r: Response, items: seq<ReservedItem>)
    requires |request.lines| >= 1 && r.items == items && |items| == |SortLines(request.lines)|
    requires forall i :: 0 <= i < |items| ==> Shows(products, SortLines(request.lines)[i], items[i])
    requires SingleCurrency(items) && r.currency == Some(items[|items| - 1].currency) && TotalsUp(items, r.total)
    requires r.shortages == [] && r.reservation == newId && r.expiresAt == Some(now + request.ttlSeconds)
    ensures AnswersActive(products, request, newId, now, r)
  {
  }

  lemma GrantListsTheLines(products: map<Id, Product>, request: Request, newId: Id, now: int, items: seq<ReservedItem>)
    requires |request.lines| >= 1 && |items| == |SortLines(request.lines)| && SingleCurrency(items)
    requires forall i :: 0 <= i < |items| ==> Shows(products, SortLines(request.lines)[i], items[i])
    ensures AnswersActive(products, request, newId, now, Granted(items, newId, now + request.ttlSeconds))
  {
    TotalIsTheCostModulo(items);
    ListsTheLines(products, request, newId, now, Granted(items, newId, now + request.ttlSeconds), items);
  }

  lemma DecideAnswersActive(products: map<Id, Product>, request: Request, newId: Id, now: int)
    requires Decide(products, request, newId, now).status == Active && |request.lines| >= 1
    requires SingleCurrency(Picked(products, SortLines(request.lines)))
    ensures AnswersActive(products, request, newId, now, Decide(products, request, newId, now))
  {
    ActiveMeansServed(products, request, newId, now);
    PickedShowsTheLines(products, SortLines(request.lines));
    GrantListsTheLines(products, request, newId, now, Picked(products, SortLines(request.lines)));
  }

  /** An active answer lists, in the order the rows are locked, each line with its row's name, price and currency, carries
      the running total and the one currency, and expires the requested time after now. */
  lemma {:induction false} ActiveAnswersTheLines(s: Ledger, request: Request, newId: Id, now: int)
    requires Valid(request) && Lookup(s.reservations, request.attempt).None?
    requires ReserveTx(s, request, newId, now, true).1.Answered?
    requires ReserveTx(s, request, newId, now, true).1.response.status == Active
    ensures AnswersActive(s.products, request, newId, now, ReserveTx(s, request, newId, now, true).1.response)
  {
    FirstAnswerIsRecorded(s, request, newId, now);
    AnswersHaveOneCurrency(s, request, newId, now);
    DecideAnswersActive(s.products, request, newId, now);
  }

  lemma AnswersHaveOneCurrency(s: Ledger, request: Request, newId: Id, now: int)
    requires Lookup(s.reservations, request.attempt).None? && ReserveTx(s, request, newId, now, true).1.Answered?
    ensures SingleCurrency(Picked(s.products, SortLines(request.lines)))
  {
  }

  /** Whatever a first call answers is stored under the new id with its attempt and status, and announced with the
      requested lines or the shortages. */
  lemma {:induction false} AnswerIsStoredAndAnnounced(s: Ledger, request: Request, newId: Id, now: int)
    requires Lookup(s.reservations, request.attempt).None? && ReserveTx(s, request, newId, now, true).1.Answered?
    ensures var (t, reply) := ReserveTx(s, request, newId, now, true);
            && newId !in s.reservations && newId in t.reservations
            && t.reservations[newId].attempt == request.attempt
            && t.reservations[newId].status == reply.response.status
            && t.reservations[newId].response == reply.response
            && (forall r :: r in t.reservations <==> r in s.reservations || r == newId)
            && (forall r :: r in s.reservations ==> t.reservations[r] == s.reservations[r])
            && |t.outbox| == |s.outbox| + 1 && t.outbox[..|s.outbox|] == s.outbox
            && t.outbox[|s.outbox|].reservation == newId && t.outbox[|s.outbox|].attempt == request.attempt
            && (reply.response.status == Active ==> t.outbox[|s.outbox|].kind == InventoryReserved(request.lines))
            && (reply.response.status == Failed ==> t.outbox[|s.outbox|].kind == ReservationFailed(reply.response.shortages))
  {
    FirstAnswerIsRecorded(s, request, newId, now);
  }

  /** Each item row of the reservation is back on its product; of the reservation only the status has changed. */
  ghost predicate GaveBack(s: Ledger, t: Ledger, reservation: Id) {
    && t.items == s.items && t.outbox == s.outbox
    && t.products.Keys == s.products.Keys && t.reservations.Keys == s.reservations.Keys
    && reservation in s.reservations
    && t.reservations[reservation].status == Released
    && t.reservations[reservation].attempt == s.reservations[reservation].attempt
    && t.reservations[reservation].response == s.reservations[reservation].response
    && (forall r :: r in s.reservations && r != reservation ==> t.reservations[r] == s.reservations[r])
    && (forall p :: p in s.products ==>
                      t.products[p] == s.products[p].(available := s.products[p].available
                        + if reservation in s.items && p in s.items[reservation] then s.items[reservation][p] else 0))
  }

  /** What one release does: nothing for an unknown reservation, an aborted transaction or one no longer active;
      otherwise it gives the item rows back. */
  lemma ReleaseGivesBack(s: Ledger, reservation: Id, commits: bool)
    ensures var (t, fault) := ReleaseTx(s, reservation, commits);
            && (fault == Some(NotFound) <==> reservation !in s.reservations)
            && (fault == Some(CommitFailed) <==> reservation in s.reservations && !commits)
            && (fault == None <==> reservation in s.reservations && commits)
            && if reservation in s.reservations && commits && s.reservations[reservation].status == Active then GaveBack(s, t, reservation)
               else t == s
  {
  }

  // ------------------------------------------------------------------ The total

  const MAX_PRICE := 0x7FFF_FFFF_FFFF_FFFF / 9900

  ghost predicate Priced(products: map<Id, Product>, lines: seq<Line>) {
    forall l :: l in lines ==> l.product in products
  }

  /** Σ price · quantity in the order of the request. */
  ghost function LineCost(products: map<Id, Product>, lines: seq<Line>): int
    requires Priced(products, lines)
  {
    if lines == [] then 0
    else
      assert lines[0] in lines;
      assert forall l :: l in lines[1..] ==> l in lines;
      products[lines[0].product].price * lines[0].quantity + LineCost(products, lines[1..])
  }

  lemma {:induction false} InsertCost(products: map<Id, Product>, line: Line, sorted: seq<Line>)
    requires line.product in products && Priced(products, sorted)
    ensures Priced(products, InsertLine(line, sorted))
    ensures LineCost(products, InsertLine(line, sorted)) == products[line.product].price * line.quantity + LineCost(products, sorted)
  {
    if sorted == [] || line.spelling <= sorted[0].spelling {
      assert ([line] + sorted)[1..] == sorted;
    } else {
      var tail := InsertLine(line, sorted[1..]);
      assert forall l :: l in sorted[1..] ==> l in sorted;
      InsertCost(products, line, sorted[1..]);
      assert ([sorted[0]] + tail)[1..] == tail;
    }
  }

  /** The total does not depend on the order of the lines. */
  lemma {:induction false} SortCost(products: map<Id, Product>, lines: seq<Line>)
    requires Priced(products, lines)
    ensures Priced(products, SortLines(lines))
    ensures LineCost(products, SortLines(lines)) == LineCost(products, lines)
  {
    if lines != [] {
      assert forall l :: l in lines[1..] ==> l in lines;
      assert lines[0] in lines;
      SortCost(products, lines[1..]);
      InsertCost(products, lines[0], SortLines(lines[1..]));
    }
  }

  lemma {:induction false} LineCostLast(products: map<Id, Product>, lines: seq<Line>)
    requires lines != [] && Priced(products, lines)
    ensures Priced(products, lines[..|lines| - 1]) && lines[|lines| - 1].product in products
    ensures LineCost(products, lines) == LineCost(products, lines[..|lines| - 1]) + products[lines[|lines| - 1].product].price * lines[|lines| - 1].quantity
  {
    assert forall l :: l in lines[1..] ==> l in lines;
    assert forall l :: l in lines[..|lines| - 1] ==> l in lines;
    assert lines[|lines| - 1] in lines;
    if |lines| > 1 {
      LineCostLast(products, lines[1..]);
      assert lines[1..][..|lines| - 2] == lines[..|lines| - 1][1..];
    }
  }

  lemma AmountBound(price: int, quantity: int)
    requires 0 <= price <= MAX_PRICE && 1 <= quantity <= MAX_QUANTITY
    ensures 0 <= price * quantity <= 99 * MAX_PRICE
  {
    assert price * quantity <= MAX_PRICE * quantity;
  }

  lemma Monotone(n: nat, m: nat, bound: nat)
    requires n <= m
    ensures n * bound <= m * bound && (n + 1) * bound == n * bound + bound
  {
  }

  lemma RoomLeft(total: int, amount: int, n: nat)
    requires n < 100 && 0 <= total <= n * 99 * MAX_PRICE && 0 <= amount <= 99 * MAX_PRICE
    ensures 0 <= total + amount <= (n + 1) * 99 * MAX_PRICE
    ensures total + amount < 0x8000_0000_0000_0000
  {
    Monotone(n + 1, 100, 99 * MAX_PRICE);
    Monotone(n, 100, 99 * MAX_PRICE);
    assert n * 99 * MAX_PRICE == n * (99 * MAX_PRICE) && (n + 1) * 99 * MAX_PRICE == (n + 1) * (99 * MAX_PRICE);
  }

  lemma AddsWithoutWrapping(total: int, item: ReservedItem)
    requires 0 <= item.price * item.quantity <= total + item.price * item.quantity < 0x8000_0000_0000_0000
    ensures AddTo64(total, item) == total + item.price * item.quantity
  {
  }

  lemma AddsExactly(total: int, item: ReservedItem, n: nat)
    requires n < 100 && 0 <= total <= n * 99 * MAX_PRICE && 0 <= item.price * item.quantity <= 99 * MAX_PRICE
    ensures AddTo64(total, item) == total + item.price * item.quantity <= (n + 1) * 99 * MAX_PRICE
  {
    RoomLeft(total, item.price * item.quantity, n);
    AddsWithoutWrapping(total, item);
  }

  /** The total is the sum of price times quantity, up to whole wraps of an int64. */
  ghost predicate TotalsUp(items: seq<ReservedItem>, total: int) {
    && -0x8000_0000_0000_0000 <= total <= 0x7FFF_FFFF_FFFF_FFFF
    && exists wraps: int :: total == Cost(items) + wraps * 0x1_0000_0000_0000_0000
  }

  lemma {:induction false} WrapsWhole(x: int) returns (wraps: int)
    ensures Wrap64(x) == x + wraps * 0x1_0000_0000_0000_0000
    decreases if IsInt64(x) then 0 else if x < 0 then -x else x
  {
    if IsInt64(x) {
      wraps := 0;
    } else if x > 0 {
      wraps := WrapsWhole(x - 0x1_0000_0000_0000_0000);
      wraps := wraps - 1;
    } else {
      wraps := WrapsWhole(x + 0x1_0000_0000_0000_0000);
      wraps := wraps + 1;
    }
  }

  /** Whatever the prices, the int64 total is the true sum up to whole wraps of 2^64. */
  lemma {:induction false} TotalIsTheCostModulo(items: seq<ReservedItem>)
    ensures TotalsUp(items, Total64(items))
  {
    if items == [] {
      assert Total64(items) == Cost(items) + 0 * 0x1_0000_0000_0000_0000;
    } else {
      var rest, item := items[..|items| - 1], items[|items| - 1];
      TotalIsTheCostModulo(rest);
      var before: int :| Total64(rest) == Cost(rest) + before * 0x1_0000_0000_0000_0000;
      var inner := WrapsWhole(item.price * item.quantity);
      var outer := WrapsWhole(Total64(rest) + Wrap64(item.price * item.quantity));
      assert Total64(items) == Cost(items) + (before + inner + outer) * 0x1_0000_0000_0000_0000;
    }
  }

  lemma {:induction false} TotalIsExact(products: map<Id, Product>, lines: seq<Line>)
    requires |lines| <= MAX_LINES && AllServed(products, lines) && Priced(products, lines)
    requires forall l :: l in lines ==> 1 <= l.quantity <= MAX_QUANTITY && 0 <= products[l.product].price <= MAX_PRICE
    ensures Total64(Picked(products, lines)) == LineCost(products, lines)
    ensures 0 <= LineCost(products, lines) <= |lines| * 99 * MAX_PRICE
  {
    if lines != [] {
      var rest, last := lines[..|lines| - 1], lines[|lines| - 1];
      assert forall l :: l in rest ==> l in lines;
      assert last in lines;
      TotalIsExact(products, rest);
      LineCostLast(products, lines);
      AmountBound(products[last.product].price, last.quantity);
      Total64Append(Picked(products, rest), ItemOf(products, last));
      AddsExactly(LineCost(products, rest), ItemOf(products, last), |rest|);
    }
  }

  /** Up to 9900 units at the bounded price, the int64 total is the true Σ price · quantity of the request. */
  lemma {:induction false} TotalNeverOverflows(s: Ledger, request: Request, newId: Id, now: int)
    requires Valid(request) && AllServed(s.products, request.lines) && Priced(s.products, request.lines)
    requires forall l :: l in request.lines ==> 0 <= s.products[l.product].price <= MAX_PRICE
    ensures Decide(s.products, request, newId, now).total == LineCost(s.products, request.lines) >= 0
  {
    var sorted := SortLines(request.lines);
    SortMembers(request.lines);
    SortCost(s.products, request.lines);
    AllServedItems(s.products, sorted);
    ValidQuantities(request);
    TotalIsExact(s.products, sorted);
  }

  // ------------------------------------------------------------------ The outbox

  /** The outbox announces every reservation once, with its attempt and its outcome, and nothing else. */
  ghost predicate Announced(reservations: map<Id, Reservation>, outbox: seq<Event>) {
    && (forall r :: r in reservations ==> exists i :: 0 <= i < |outbox| && outbox[i].reservation == r)
    && (forall i, j :: 0 <= i < j < |outbox| ==> outbox[i].reservation != outbox[j].reservation)
    && (forall i :: 0 <= i < |outbox| ==> outbox[i].reservation in reservations && Matches(outbox[i], reservations[outbox[i].reservation]))
  }

  ghost predicate Matches(e: Event, row: Reservation) {
    e.attempt == row.attempt && (e.kind.InventoryReserved? <==> row.response.status == Active)
  }

  lemma NewRowIsAnnounced(reservations: map<Id, Reservation>, outbox: seq<Event>, row: Reservation, e: Event)
    requires Announced(reservations, outbox) && e.reservation !in reservations && Matches(e, row)
    ensures Announced(reservations[e.reservation := row], outbox + [e])
  {
    var after, events := reservations[e.reservation := row], outbox + [e];
    forall r | r in after ensures exists i :: 0 <= i < |events| && events[i].reservation == r {
      if r == e.reservation {
        assert events[|outbox|].reservation == r;
      } else {
        var i :| 0 <= i < |outbox| && outbox[i].reservation == r;
        assert events[i].reservation == r;
      }
    }
  }

  lemma StatusChangeStaysAnnounced(reservations: map<Id, Reservation>, outbox: seq<Event>, r: Id, status: Status)
    requires Announced(reservations, outbox) && r in reservations
    ensures Announced(reservations[r := reservations[r].(status := status)], outbox)
  {
  }

  lemma StepAnnounces(s: Ledger, call: Call)
    requires Announced(s.reservations, s.outbox)
    ensures Announced(Step(s, call).reservations, Step(s, call).outbox)
  {
    if Step(s, call) != s {
      match call
      case ReserveCall(request, newId, now, _) =>
        var response := Decide(s.products, request, newId, now);
        NewRowIsAnnounced(s.reservations, s.outbox, Reservation(request.attempt, response.status, response), Announcement(request, response));
      case ReleaseCall(r, _) => StatusChangeStaysAnnounced(s.reservations, s.outbox, r, Released);
    }
  }

  lemma {:induction false} RunAnnounces(products: map<Id, Product>, calls: seq<Call>)
    ensures Announced(Run(Opening(products), calls).reservations, Run(Opening(products), calls).outbox)
  {
    if calls != [] {
      RunAnnounces(products, calls[..|calls| - 1]);
      StepAnnounces(Run(Opening(products), calls[..|calls| - 1]), calls[|calls| - 1]);
    }
  }
}
