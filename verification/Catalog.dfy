/**
 The catalog service: stock rows, idempotent reservations and their release.

 Each committed PostgreSQL transaction is one function from tables to tables (`ReserveTx`, `ReleaseTx`).
 `CatalogDb` runs the same transactions step by step over mutable tables.
 The constraints of the schema are part of the step: a violated key or check rolls the transaction back.
 */
module Catalog {
  import opened Prelude

  type Currency = nat

  datatype Product = Product(name: string, price: int, currency: Currency, available: int, active: bool)

  /** One requested line. `spelling` ranks the product id as text, `product` is the row the text denotes:
      UUID texts that differ in letter case are different spellings of one row. */
  datatype Line = Line(spelling: nat, product: Id, quantity: int)

  datatype Request = Request(attempt: Id, lines: seq<Line>, ttlSeconds: int)

  datatype ReservedItem = ReservedItem(product: Id, name: string, quantity: int, price: int, currency: Currency)

  datatype Shortage = Shortage(product: Id, requested: int, available: int)

  datatype Status = Active | Failed | Released

  datatype Response = Response(
    reservation: Id, status: Status, items: seq<ReservedItem>, shortages: seq<Shortage>,
    total: int, currency: Option<Currency>, expiresAt: Option<int>)

  datatype Reservation = Reservation(attempt: Id, status: Status, response: Response)

  datatype EventKind = InventoryReserved(lines: seq<Line>) | ReservationFailed(shortages: seq<Shortage>)

  datatype Event = Event(reservation: Id, attempt: Id, kind: EventKind)

  datatype Ledger = Ledger(
    products: map<Id, Product>,
    reservations: map<Id, Reservation>,
    items: map<Id, map<Id, int>>,
    outbox: seq<Event>)

  datatype Fault = MixedCurrencies | ConstraintViolated | CommitFailed | NotFound

  datatype Reply = Answered(response: Response) | Faulted(fault: Fault)

  /** An id as it arrives: the rank of the text and the id it denotes, or a text that is no UUID. */
  datatype Text = Uuid(spelling: nat, id: Id) | Malformed

  datatype RawLine = RawLine(product: Text, quantity: int)

  datatype RawRequest = RawRequest(attempt: Text, lines: seq<RawLine>, ttlSeconds: int)

  datatype Invalid = BadAttempt | TooFewOrMany | BadTtl | BadLine | DuplicateProduct

  datatype Validated = Accepted(request: Request) | Refused(invalid: Invalid)

  // ------------------------------------------------------------------ Reading a request

  const MAX_LINES := 100
  const MAX_QUANTITY := 99

  /** What `validateReserve` promises about the numbers and texts of an accepted request. */
  ghost predicate Valid(request: Request) {
    && 1 <= |request.lines| <= MAX_LINES
    && 60 <= request.ttlSeconds <= 1800
    && (forall i :: 0 <= i < |request.lines| ==> 1 <= request.lines[i].quantity <= MAX_QUANTITY)
    && (forall i, j :: 0 <= i < j < |request.lines| ==> request.lines[i].spelling != request.lines[j].spelling)
  }

  predicate GoodLine(line: RawLine) {
    line.product.Uuid? && 1 <= line.quantity <= MAX_QUANTITY
  }

  ghost predicate GoodLines(lines: seq<RawLine>) {
    && (forall i :: 0 <= i < |lines| ==> GoodLine(lines[i]))
    && (forall i, j :: 0 <= i < j < |lines| ==> lines[i].product.spelling != lines[j].product.spelling)
  }

  function ParsedLine(line: RawLine): Line
    requires line.product.Uuid?
  {
    Line(line.product.spelling, line.product.id, line.quantity)
  }

  /** The request a raw one stands for. */
  ghost predicate Parses(raw: RawRequest, request: Request) {
    && raw.attempt.Uuid? && request.attempt == raw.attempt.id && request.ttlSeconds == raw.ttlSeconds
    && |request.lines| == |raw.lines|
    && forall i :: 0 <= i < |raw.lines| ==> raw.lines[i].product.Uuid? && request.lines[i] == ParsedLine(raw.lines[i])
  }

  /** Everything before line `k` is good, and line `k` is at fault. */
  ghost predicate FaultAt(lines: seq<RawLine>, k: nat, invalid: Invalid) {
    && k < |lines| && GoodLines(lines[..k])
    && match invalid
       case BadLine => !GoodLine(lines[k])
       case DuplicateProduct => GoodLine(lines[k]) && exists i :: 0 <= i < k && lines[i].product.spelling == lines[k].product.spelling
       case _ => false
  }

  /** Checks run in order and the first failing one is reported. */
  method ValidateReserve(raw: RawRequest) returns (r: Validated)
    ensures r.Accepted? <==>
              raw.attempt.Uuid? && 1 <= |raw.lines| <= MAX_LINES && 60 <= raw.ttlSeconds <= 1800 && GoodLines(raw.lines)
    ensures r.Accepted? ==> Parses(raw, r.request) && Valid(r.request)
    ensures r == Refused(BadAttempt) <==> raw.attempt.Malformed?
    ensures r == Refused(TooFewOrMany) <==> raw.attempt.Uuid? && !(1 <= |raw.lines| <= MAX_LINES)
    ensures r == Refused(BadTtl) <==>
              raw.attempt.Uuid? && 1 <= |raw.lines| <= MAX_LINES && !(60 <= raw.ttlSeconds <= 1800)
    ensures r.Refused? && (r.invalid == BadLine || r.invalid == DuplicateProduct) ==> exists k: nat :: FaultAt(raw.lines, k, r.invalid)
  {
    if raw.attempt.Malformed? {
      return Refused(BadAttempt);
    }
    if |raw.lines| == 0 || |raw.lines| > MAX_LINES {
      return Refused(TooFewOrMany);
    }
    if raw.ttlSeconds < 60 || raw.ttlSeconds > 1800 {
      return Refused(BadTtl);
    }
    var seen: set<nat> := {};
    var lines: seq<Line> := [];
    for i := 0 to |raw.lines|
      invariant GoodLines(raw.lines[..i])
      invariant seen == set k | 0 <= k < i :: raw.lines[k].product.spelling
      invariant |lines| == i && forall k :: 0 <= k < i ==> lines[k] == ParsedLine(raw.lines[k])
    {
      var line := raw.lines[i];
      if line.product.Malformed? || line.quantity < 1 || line.quantity > MAX_QUANTITY {
        assert FaultAt(raw.lines, i, BadLine);
        return Refused(BadLine);
      }
      if line.product.spelling in seen {
        assert FaultAt(raw.lines, i, DuplicateProduct);
        return Refused(DuplicateProduct);
      }
      seen := seen + {line.product.spelling};
      lines := lines + [ParsedLine(line)];
    }
    assert raw.lines[..|raw.lines|] == raw.lines;
    return Accepted(Request(raw.attempt.id, lines, raw.ttlSeconds));
  }

  /** Rows are locked in the order of the texts (`sort.Slice` by product id). */
  function SortLines(lines: seq<Line>): (sorted: seq<Line>)
    ensures |sorted| == |lines|
  {
    if lines == [] then [] else InsertLine(lines[0], SortLines(lines[1..]))
  }

  function InsertLine(line: Line, sorted: seq<Line>): (r: seq<Line>)
    ensures |r| == |sorted| + 1
  {
    if sorted == [] || line.spelling <= sorted[0].spelling then [line] + sorted
    else [sorted[0]] + InsertLine(line, sorted[1..])
  }

  // ------------------------------------------------------------------ What a reservation takes

  predicate Fulfillable(products: map<Id, Product>, line: Line) {
    line.product in products && products[line.product].active && products[line.product].available >= line.quantity
  }

  function ShortageOf(products: map<Id, Product>, line: Line): Shortage {
    Shortage(line.product, line.quantity,
             if line.product in products && products[line.product].active then products[line.product].available else 0)
  }

  function ItemOf(products: map<Id, Product>, line: Line): ReservedItem
    requires line.product in products
  {
    var row := products[line.product];
    ReservedItem(line.product, row.name, line.quantity, row.price, row.currency)
  }

  /** The failing lines, in order. */
  function Shortages(products: map<Id, Product>, lines: seq<Line>): seq<Shortage> {
    if lines == [] then []
    else
      var line := lines[|lines| - 1];
      Shortages(products, lines[..|lines| - 1])
      + if Fulfillable(products, line) then [] else [ShortageOf(products, line)]
  }

  /** The lines that can be served, in order. */
  function Picked(products: map<Id, Product>, lines: seq<Line>): seq<ReservedItem> {
    if lines == [] then []
    else
      var line := lines[|lines| - 1];
      Picked(products, lines[..|lines| - 1])
      + if Fulfillable(products, line) then [ItemOf(products, line)] else []
  }

  ghost predicate SingleCurrency(items: seq<ReservedItem>) {
    forall i, j :: 0 <= i < |items| && 0 <= j < |items| ==> items[i].currency == items[j].currency
  }

  ghost predicate DistinctRows(items: seq<ReservedItem>) {
    forall i, j :: 0 <= i < j < |items| ==> items[i].product != items[j].product
  }

  /** What the item table accepts: one row per product (primary key), positive quantities (check). */
  ghost predicate Insertable(items: seq<ReservedItem>) {
    DistinctRows(items) && forall i :: 0 <= i < |items| ==> items[i].quantity > 0
  }

  /** Σ price · quantity, over the integers. */
  function Cost(items: seq<ReservedItem>): int {
    if items == [] then 0
    else
      var item := items[|items| - 1];
      Cost(items[..|items| - 1]) + item.price * item.quantity
  }

  const MAX_INT64 := 0x7FFF_FFFF_FFFF_FFFF

  predicate IsInt64(x: int) {
    -MAX_INT64 - 1 <= x <= MAX_INT64
  }

  /** Two's complement: an int64 that overflows goes round by 2^64 until it is in range. */
  function Wrap64(x: int): (r: int)
    ensures IsInt64(r) && (IsInt64(x) ==> r == x)
    decreases if IsInt64(x) then 0 else if x < 0 then -x else x
  {
    if IsInt64(x) then x
    else if x > 0 then Wrap64(x - 0x1_0000_0000_0000_0000)
    else Wrap64(x + 0x1_0000_0000_0000_0000)
  }

  /** The running total as the code keeps it, in an int64. */
  function Total64(items: seq<ReservedItem>): int {
    if items == [] then 0
    else
      var item := items[|items| - 1];
      AddTo64(Total64(items[..|items| - 1]), item)
  }

  function AddTo64(total: int, item: ReservedItem): int {
    Wrap64(total + Wrap64(item.price * item.quantity))
  }

  /** How much of one product a list of items takes. */
  function Taken(items: seq<ReservedItem>, product: Id): int {
    if items == [] then 0
    else
      var item := items[|items| - 1];
      Taken(items[..|items| - 1], product) + if item.product == product then item.quantity else 0
  }

  function Decremented(products: map<Id, Product>, items: seq<ReservedItem>): map<Id, Product> {
    map p | p in products :: products[p].(available := products[p].available - Taken(items, p))
  }

  /** The item rows of a reservation; for distinct rows this is one row per item. */
  function ItemRows(items: seq<ReservedItem>): map<Id, int> {
    if items == [] then map[]
    else
      var item := items[|items| - 1];
      ItemRows(items[..|items| - 1])[item.product := item.quantity]
  }

  // ------------------------------------------------------------------ The two transactions

  ghost predicate UniqueAttempts(reservations: map<Id, Reservation>) {
    forall r, q :: r in reservations && q in reservations && reservations[r].attempt == reservations[q].attempt ==> r == q
  }

  ghost function Lookup(reservations: map<Id, Reservation>, attempt: Id): (found: Option<Id>)
    ensures found.Some? ==> found.value in reservations && reservations[found.value].attempt == attempt
    ensures found.None? ==> forall r :: r in reservations ==> reservations[r].attempt != attempt
  {
    if exists r :: r in reservations && reservations[r].attempt == attempt then
      var r :| r in reservations && reservations[r].attempt == attempt;
      Some(r)
    else None
  }

  function Granted(items: seq<ReservedItem>, reservation: Id, expiresAt: int): Response {
    Response(reservation, Active, items, [], Total64(items),
             if items == [] then None else Some(items[|items| - 1].currency), Some(expiresAt))
  }

  /** The response of a first call. */
  function Decide(products: map<Id, Product>, request: Request, newId: Id, now: int): Response {
    var lines := SortLines(request.lines);
    var shortages := Shortages(products, lines);
    if shortages == [] then Granted(Picked(products, lines), newId, now + request.ttlSeconds)
    else
      Response(newId, Failed, [], shortages, 0, None, None)
  }

  function Announcement(request: Request, response: Response): Event {
    Event(response.reservation, request.attempt,
          if response.status == Active then InventoryReserved(request.lines) else ReservationFailed(response.shortages))
  }

  /** The tables after a first call has committed. */
  function Recorded(s: Ledger, request: Request, response: Response): Ledger {
    var row := Reservation(request.attempt, response.status, response);
    Ledger(
      Decremented(s.products, response.items),
      s.reservations[response.reservation := row],
      if response.status == Active then s.items[response.reservation := ItemRows(response.items)] else s.items,
      s.outbox + [Announcement(request, response)])
  }

  /** `Reserve`: `newId` is the new reservation id, `commits` tells whether PostgreSQL commits. */
  ghost function ReserveTx(s: Ledger, request: Request, newId: Id, now: int, commits: bool): (r: (Ledger, Reply)) {
    var found := Lookup(s.reservations, request.attempt);
    if found.Some? then (s, Answered(s.reservations[found.value].response))
    else
      var response := Decide(s.products, request, newId, now);
      if !SingleCurrency(Picked(s.products, SortLines(request.lines))) then (s, Faulted(MixedCurrencies))
      else if !Insertable(response.items) || newId in s.reservations then (s, Faulted(ConstraintViolated))
      else if !commits then (s, Faulted(CommitFailed))
      else (Recorded(s, request, response), Answered(response))
  }

  function Restored(products: map<Id, Product>, rows: map<Id, int>): map<Id, Product> {
    map p | p in products :: products[p].(available := products[p].available + if p in rows then rows[p] else 0)
  }

  function RowsOf(s: Ledger, reservation: Id): map<Id, int> {
    if reservation in s.items then s.items[reservation] else map[]
  }

  /** `Release`: only an active reservation gives its stock back. */
  function ReleaseTx(s: Ledger, reservation: Id, commits: bool): (r: (Ledger, Option<Fault>)) {
    if reservation !in s.reservations then (s, Some(NotFound))
    else if !commits then (s, Some(CommitFailed))
    else if s.reservations[reservation].status != Active then (s, None)
    else
      var row := s.reservations[reservation].(status := Released);
      (s.(products := Restored(s.products, RowsOf(s, reservation)),
          reservations := s.reservations[reservation := row]),
       None)
  }

  // ------------------------------------------------------------------ The store, step by step

  lemma {:induction false} PickedPrefix(products: map<Id, Product>, lines: seq<Line>, k: nat)
    requires k <= |lines|
    ensures Picked(products, lines[..k]) <= Picked(products, lines)
    decreases |lines| - k
  {
    if k < |lines| {
      assert lines[..k + 1][..k] == lines[..k];
      PickedPrefix(products, lines, k + 1);
    } else {
      assert lines[..k] == lines;
    }
  }

  lemma PickedNext(products: map<Id, Product>, lines: seq<Line>, i: nat)
    requires i < |lines|
    ensures Picked(products, lines[..i + 1]) == Picked(products, lines[..i])
              + if Fulfillable(products, lines[i]) then [ItemOf(products, lines[i])] else []
    ensures Shortages(products, lines[..i + 1]) == Shortages(products, lines[..i])
              + if Fulfillable(products, lines[i]) then [] else [ShortageOf(products, lines[i])]
  {
    assert lines[..i + 1][..i] == lines[..i];
  }

  lemma Total64Append(items: seq<ReservedItem>, item: ReservedItem)
    ensures Total64(items + [item]) == AddTo64(Total64(items), item)
  {
    assert (items + [item])[..|items|] == items;
  }

  lemma SingleCurrencyAppend(items: seq<ReservedItem>, item: ReservedItem)
    requires SingleCurrency(items) && (items == [] || items[|items| - 1].currency == item.currency)
    ensures SingleCurrency(items + [item])
  {
  }

  lemma {:induction false} PickedAvailable(products: map<Id, Product>, lines: seq<Line>)
    ensures forall i :: 0 <= i < |Picked(products, lines)| ==>
                          && Picked(products, lines)[i].product in products
                          && products[Picked(products, lines)[i].product].active
                          && Picked(products, lines)[i].quantity <= products[Picked(products, lines)[i].product].available
  {
    if lines != [] {
      PickedAvailable(products, lines[..|lines| - 1]);
    }
  }

  lemma {:induction false} TakenAbsent(items: seq<ReservedItem>, product: Id)
    requires forall i :: 0 <= i < |items| ==> items[i].product != product
    ensures Taken(items, product) == 0
  {
    if items != [] {
      TakenAbsent(items[..|items| - 1], product);
    }
  }

  lemma {:induction false} ItemRowsKeys(items: seq<ReservedItem>)
    ensures ItemRows(items).Keys == set i | 0 <= i < |items| :: items[i].product
  {
    if items != [] {
      var rest := items[..|items| - 1];
      ItemRowsKeys(rest);
      var keys := set i | 0 <= i < |items| :: items[i].product;
      forall p | p in keys ensures p in ItemRows(items) {
        var i :| 0 <= i < |items| && items[i].product == p;
        if i < |rest| {
          assert rest[i].product == p;
        }
      }
      forall p | p in ItemRows(items) ensures p in keys {
        if p != items[|items| - 1].product {
          assert p in ItemRows(rest);
          var i :| 0 <= i < |rest| && rest[i].product == p;
          assert items[i].product == p;
        }
      }
    }
  }

  lemma DistinctNext(items: seq<ReservedItem>, i: nat)
    requires i < |items| && DistinctRows(items[..i]) && items[i].product !in ItemRows(items[..i])
    ensures DistinctRows(items[..i + 1])
  {
    var longer := items[..i + 1];
    ItemRowsKeys(items[..i]);
    forall k, m | 0 <= k < m < |longer| ensures longer[k].product != longer[m].product {
      assert longer[k] == items[..i][k];
      if m < i {
        assert longer[m] == items[..i][m];
      }
    }
  }

  /** The first loop of `Reserve`: lock and read each row, collect items, shortages, total and currency. */
  method PickLines(products: map<Id, Product>, lines: seq<Line>)
    returns (mixed: bool, reserved: seq<ReservedItem>, shortages: seq<Shortage>, total: int, currency: Option<Currency>)
    ensures mixed <==> !SingleCurrency(Picked(products, lines))
    ensures !mixed ==> reserved == Picked(products, lines) && shortages == Shortages(products, lines)
    ensures !mixed ==> total == Total64(reserved)
    ensures !mixed ==> currency == if reserved == [] then None else Some(reserved[|reserved| - 1].currency)
  {
    mixed, reserved, shortages, total, currency := false, [], [], 0, None;
    for i := 0 to |lines|
      invariant reserved == Picked(products, lines[..i]) && shortages == Shortages(products, lines[..i])
      invariant total == Total64(reserved) && SingleCurrency(reserved) && !mixed
      invariant currency == if reserved == [] then None else Some(reserved[|reserved| - 1].currency)
    {
      var line := lines[i];
      PickedNext(products, lines, i);
      if line.product !in products || !products[line.product].active {
        shortages := shortages + [Shortage(line.product, line.quantity, 0)];
        continue;
      }
      var row := products[line.product];
      if row.available < line.quantity {
        shortages := shortages + [Shortage(line.product, line.quantity, row.available)];
        continue;
      }
      var item := ReservedItem(line.product, row.name, line.quantity, row.price, row.currency);
      if currency != None && currency != Some(row.currency) {
        PickedPrefix(products, lines, i + 1);
        assert Picked(products, lines)[|reserved| - 1].currency != Picked(products, lines)[|reserved|].currency;
        mixed := true;
        return;
      }
      currency := Some(row.currency);
      total := AddTo64(total, item);
      Total64Append(reserved, item);
      SingleCurrencyAppend(reserved, item);
      reserved := reserved + [item];
    }
    assert lines[..|lines|] == lines;
  }

  /** The second loop: subtract each item from its row; the check `available_quantity >= 0` may fire. */
  method Decrement(products: map<Id, Product>, reserved: seq<ReservedItem>) returns (stock: Option<map<Id, Product>>)
    requires forall i :: 0 <= i < |reserved| ==>
                           && reserved[i].product in products
                           && reserved[i].quantity <= products[reserved[i].product].available
    ensures stock.Some? ==> stock.value == Decremented(products, reserved)
    ensures stock.None? ==> !DistinctRows(reserved)
  {
    var rows := products;
    assert rows == Decremented(products, reserved[..0]);
    for i := 0 to |reserved|
      invariant rows == Decremented(products, reserved[..i])
    {
      var item := reserved[i];
      assert reserved[..i + 1][..i] == reserved[..i];
      var left := rows[item.product].available - item.quantity;
      if left < 0 {
        if DistinctRows(reserved) {
          TakenAbsent(reserved[..i], item.product);
        }
        return None;
      }
      rows := rows[item.product := rows[item.product].(available := left)];
    }
    assert reserved[..|reserved|] == reserved;
    return Some(rows);
  }

  /** The third loop: one item row per reserved item; the primary key or the quantity check may be violated. */
  method InsertItems(reserved: seq<ReservedItem>) returns (rows: Option<map<Id, int>>)
    ensures rows.Some? <==> Insertable(reserved)
    ensures rows.Some? ==> rows.value == ItemRows(reserved)
  {
    var inserted: map<Id, int> := map[];
    for i := 0 to |reserved|
      invariant inserted == ItemRows(reserved[..i]) && Insertable(reserved[..i])
    {
      var item := reserved[i];
      assert reserved[..i + 1][..i] == reserved[..i];
      ItemRowsKeys(reserved[..i]);
      if item.quantity <= 0 {
        return None;
      }
      if item.product in inserted {
        var k :| 0 <= k < i && reserved[..i][k].product == item.product;
        assert reserved[k].product == reserved[i].product;
        return None;
      }
      inserted := inserted[item.product := item.quantity];
      DistinctNext(reserved, i);
    }
    assert reserved[..|reserved|] == reserved;
    return Some(inserted);
  }

  method TakeStock(products: map<Id, Product>, reserved: seq<ReservedItem>)
    returns (fits: bool, stock: map<Id, Product>, rows: map<Id, int>)
    requires forall i :: 0 <= i < |reserved| ==>
                           && reserved[i].product in products
                           && reserved[i].quantity <= products[reserved[i].product].available
    ensures fits <==> Insertable(reserved)
    ensures fits ==> stock == Decremented(products, reserved) && rows == ItemRows(reserved)
  {
    stock, rows := products, map[];
    var decremented := Decrement(products, reserved);
    if decremented.None? {
      return false, stock, rows;
    }
    var inserted := InsertItems(reserved);
    if inserted.None? {
      return false, stock, rows;
    }
    return true, decremented.value, inserted.value;
  }

  datatype Plan = Rejected(fault: Fault) | Planned(response: Response, stock: map<Id, Product>, rows: map<Id, int>)

  ghost function PlanOf(products: map<Id, Product>, request: Request, newId: Id, now: int): Plan {
    var response := Decide(products, request, newId, now);
    if !SingleCurrency(Picked(products, SortLines(request.lines))) then Rejected(MixedCurrencies)
    else if !Insertable(response.items) then Rejected(ConstraintViolated)
    else Planned(response, Decremented(products, response.items), ItemRows(response.items))
  }

  lemma NothingTaken(products: map<Id, Product>)
    ensures Decremented(products, []) == products && Insertable([]) && ItemRows([]) == map[]
  {
  }

  /** Everything `Reserve` works out before it writes the reservation row. */
  method MakePlan(products: map<Id, Product>, request: Request, newId: Id, now: int) returns (plan: Plan)
    ensures plan == PlanOf(products, request, newId, now)
  {
    var lines := SortLines(request.lines);
    var mixed, reserved, shortages, total, currency := PickLines(products, lines);
    if mixed {
      plan := Rejected(MixedCurrencies);
    } else if |shortages| > 0 {
      NothingTaken(products);
      plan := Planned(Response(newId, Failed, [], shortages, 0, None, None), products, map[]);
    } else {
      PickedAvailable(products, lines);
      var fits, stock, rows := TakeStock(products, reserved);
      if fits {
        plan := Planned(Response(newId, Active, reserved, [], total, currency, Some(now + request.ttlSeconds)), stock, rows);
      } else {
        plan := Rejected(ConstraintViolated);
      }
    }
  }

  class CatalogDb {
    var products: map<Id, Product>
    var reservations: map<Id, Reservation>
    var items: map<Id, map<Id, int>>
    var outbox: seq<Event>

    ghost function View(): Ledger
      reads this
    {
      Ledger(products, reservations, items, outbox)
    }

    method Reserve(request: Request, newId: Id, now: int, commits: bool) returns (reply: Reply)
      requires UniqueAttempts(reservations)
      modifies this
      ensures (View(), reply) == ReserveTx(old(View()), request, newId, now, commits)
    {
      if exists r :: r in reservations && reservations[r].attempt == request.attempt {
        var r :| r in reservations && reservations[r].attempt == request.attempt;
        return Answered(reservations[r].response);
      }
      var plan := MakePlan(products, request, newId, now);
      if plan.Rejected? {
        return Faulted(plan.fault);
      }
      var response := plan.response;
      if newId in reservations {
        return Faulted(ConstraintViolated);
      }
      if !commits {
        return Faulted(CommitFailed);
      }
      products := plan.stock;
      reservations := reservations[newId := Reservation(request.attempt, response.status, response)];
      if response.status == Active {
        items := items[newId := plan.rows];
      }
      outbox := outbox + [Announcement(request, response)];
      return Answered(response);
    }

    method Release(reservation: Id, commits: bool) returns (fault: Option<Fault>)
      modifies this
      ensures (View(), fault) == ReleaseTx(old(View()), reservation, commits)
    {
      if reservation !in reservations {
        return Some(NotFound);
      }
      if !commits {
        return Some(CommitFailed);
      }
      if reservations[reservation].status != Active {
        return None;
      }
      var rows: map<Id, int> := if reservation in items then items[reservation] else map[];
      products := map p | p in products ::
        products[p].(available := products[p].available + if p in rows then rows[p] else 0);
      reservations := reservations[reservation := reservations[reservation].(status := Released)];
      return None;
    }
  }
}
