/** The cart service: versioned rows in PostgreSQL behind a cache whose writes and deletes may be lost. */
module Carts {
  import opened Prelude

  datatype Item = Item(product: Id, quantity: int)

  datatype Cart = Cart(version: nat, items: seq<Item>)

  /** The rows of one user. */
  datatype Rows = Rows(version: Option<nat>, items: map<Id, int>)

  const ABSENT := Rows(None, map[])
  const MAX_QUANTITY := 99

  ghost predicate Least(m: map<Id, int>, k: Id) {
    k in m && forall j :: j in m ==> k <= j
  }

  lemma {:induction false} LeastExists(m: map<Id, int>)
    requires m != map[]
    ensures exists k :: Least(m, k)
    decreases |m|
  {
    var k := PickKey(m);
    if m - {k} != map[] {
      LeastExists(m - {k});
      var j :| Least(m - {k}, j);
      assert Least(m, if k <= j then k else j) by {
        assert forall i :: i in m ==> i == k || i in m - {k};
      }
    } else {
      assert forall i :: i in m && i != k ==> i in m - {k};
      assert Least(m, k);
    }
  }

  /** The rows `ORDER BY product_id`. */
  ghost function Listing(m: map<Id, int>): seq<Item>
    decreases |m|
  {
    if m == map[] then []
    else
      LeastExists(m);
      var k :| Least(m, k);
      [Item(k, m[k])] + Listing(m - {k})
  }

  lemma LeastIsUnique(m: map<Id, int>, k: Id, j: Id)
    requires Least(m, k) && Least(m, j)
    ensures k == j
  {
  }

  /** A listing starts with the least row, whichever way that is found. */
  lemma ListingStarts(m: map<Id, int>, k: Id)
    requires Least(m, k)
    ensures Listing(m) == [Item(k, m[k])] + Listing(m - {k})
  {
    var first: Id :| Least(m, first) && Listing(m) == [Item(first, m[first])] + Listing(m - {first});
    LeastIsUnique(m, first, k);
  }

  lemma ScanNext(scanned: seq<Item>, left: map<Id, int>, k: Id)
    requires Least(left, k)
    ensures scanned + [Item(k, left[k])] + Listing(left - {k}) == scanned + Listing(left)
    ensures |left - {k}| < |left|
  {
    ListingStarts(left, k);
    assert (left - {k}).Keys == left.Keys - {k};
  }

  ghost predicate Lists(items: seq<Item>, m: map<Id, int>) {
    && (forall i :: 0 <= i < |items| ==> items[i].product in m && m[items[i].product] == items[i].quantity)
    && (forall i, j :: 0 <= i < j < |items| ==> items[i].product < items[j].product)
    && (forall p :: p in m ==> Item(p, m[p]) in items)
  }

  lemma LeastFirst(m: map<Id, int>, k: Id, rest: seq<Item>)
    requires Least(m, k) && Lists(rest, m - {k})
    ensures Lists([Item(k, m[k])] + rest, m)
  {
    forall p | p in m ensures Item(p, m[p]) in [Item(k, m[k])] + rest {
      if p != k {
        assert p in m - {k};
      }
    }
  }

  /** A listing ascends strictly and holds exactly the rows. */
  lemma {:induction false} ListingLists(m: map<Id, int>)
    ensures Lists(Listing(m), m)
    decreases |m|
  {
    if m != map[] {
      LeastExists(m);
      var k :| Least(m, k) && Listing(m) == [Item(k, m[k])] + Listing(m - {k});
      ListingLists(m - {k});
      LeastFirst(m, k, Listing(m - {k}));
    }
  }

  ghost function CartOf(rows: Rows): Cart {
    match rows.version
    case None => Cart(0, [])
    case Some(v) => Cart(v, Listing(rows.items))
  }

  // ------------------------------------------------------------------ The two write transactions

  predicate Acceptable(quantity: int) {
    1 <= quantity <= MAX_QUANTITY
  }

  function SetTx(rows: Rows, product: Id, quantity: int, commits: bool): Rows {
    if !Acceptable(quantity) || !commits then rows
    else Rows(Some(if rows.version.Some? then rows.version.value + 1 else 1), rows.items[product := quantity])
  }

  /** The foreign key keeps item rows only under a cart row. */
  ghost predicate Keyed(rows: Rows) {
    rows.items != map[] ==> rows.version.Some?
  }

  function DeleteTx(rows: Rows, product: Id, commits: bool): Rows {
    if product !in rows.items || !commits then rows
    else Rows(if rows.version.Some? then Some(rows.version.value + 1) else None, rows.items - {product})
  }

  /** A write changes the contents only together with a strictly greater version, keeps the foreign key, and a
      committed SetItem always takes a new version. Removing what is not there changes nothing. */
  lemma WritesRaiseTheVersion(rows: Rows, product: Id, quantity: int, commits: bool)
    requires Keyed(rows)
    ensures forall after :: after == SetTx(rows, product, quantity, commits) || after == DeleteTx(rows, product, commits) ==>
              && Keyed(after)
              && (after != rows ==> after.version == Some(CartOf(rows).version + 1))
    ensures commits && Acceptable(quantity) ==> SetTx(rows, product, quantity, commits) != rows
    ensures DeleteTx(rows, product, commits) != rows <==> commits && product in rows.items
  {
    if product in rows.items {
      assert product !in DeleteTx(rows, product, true).items;
    }
  }

  /** What SetItem leaves: refused or aborted, nothing changes. Committed, the product has exactly the given quantity, every
      other product is there with its quantity if and only if it was, and the version goes up by one, from 1 on. */
  lemma SetItemUpsertsOneRow(rows: Rows, product: Id, quantity: int, commits: bool)
    ensures var after := SetTx(rows, product, quantity, commits);
            if 1 <= quantity <= 99 && commits then
              && product in after.items && after.items[product] == quantity
              && (forall p :: p != product ==> (p in after.items <==> p in rows.items))
              && (forall p :: p != product && p in rows.items ==> after.items[p] == rows.items[p])
              && after.version == Some(match rows.version case None => 1 case Some(v) => v + 1)
            else after == rows
  {
  }

  /** What DeleteItem leaves: committed, the product is gone and every other row is as it was; the version goes up by one
      if a row was deleted. */
  lemma DeleteItemRemovesOneRow(rows: Rows, product: Id, commits: bool)
    requires Keyed(rows)
    ensures var after := DeleteTx(rows, product, commits);
            if commits then
              && product !in after.items
              && (forall p :: p != product ==> (p in after.items <==> p in rows.items))
              && (forall p :: p != product && p in rows.items ==> after.items[p] == rows.items[p])
              && if product in rows.items then after.version == Some(rows.version.value + 1) else after.version == rows.version
            else after == rows
  {
  }

  /** What the caller of a committed SetItem is shown: the new quantity, once, and every other item as before. */
  lemma {:induction false} SetItemShowsTheUpsert(rows: Rows, product: Id, quantity: int)
    requires 1 <= quantity <= 99
    ensures var shown, before := CartOf(SetTx(rows, product, quantity, true)).items, Listing(rows.items);
            && (forall i: Item :: i in shown <==> (i.product == product && i.quantity == quantity) || (i.product != product && i in before))
            && (forall i, j :: 0 <= i < j < |shown| ==> shown[i].product < shown[j].product)
  {
    var after := SetTx(rows, product, quantity, true).items;
    ListingHolds(after);
    ListingHolds(rows.items);
  }

  lemma ListingHolds(m: map<Id, int>)
    ensures forall i: Item :: i in Listing(m) <==> i.product in m && m[i.product] == i.quantity
    ensures forall i, j :: 0 <= i < j < |Listing(m)| ==> Listing(m)[i].product < Listing(m)[j].product
  {
    ListingLists(m);
  }

  // ------------------------------------------------------------------ The store

  class Store {
    var versions: map<Id, nat>
    var items: map<Id, map<Id, int>>
    var cache: map<Id, Cart>

    ghost function Row(user: Id): Rows
      reads this
    {
      Rows(if user in versions then Some(versions[user]) else None, if user in items then items[user] else map[])
    }

    /** The row loop of `getCart`. */
    static method Scan(rows: map<Id, int>) returns (scanned: seq<Item>)
      ensures scanned == Listing(rows)
    {
      scanned := [];
      var left := rows;
      while left != map[]
        invariant scanned + Listing(left) == Listing(rows)
        decreases |left|
      {
        LeastExists(left);
        var k :| k in left && forall j :: j in left ==> k <= j;
        ScanNext(scanned, left, k);
        scanned := scanned + [Item(k, left[k])];
        left := left - {k};
      }
    }

    method GetCart(user: Id) returns (value: Cart)
      ensures value == CartOf(Row(user))
    {
      if user !in versions {
        return Cart(0, []);
      }
      var scanned := Scan(if user in items then items[user] else map[]);
      return Cart(versions[user], scanned);
    }

    /** `Get` without interference; `readable` is a usable cache answer, `answers` tells whether PostgreSQL answers,
        `stored` whether the cache write works. */
    method Get(user: Id, readable: bool, answers: bool, stored: bool) returns (value: Option<Cart>)
      modifies this`cache
      ensures user in old(cache) && readable ==> value == Some(old(cache[user])) && cache == old(cache)
      ensures !(user in old(cache) && readable) && !answers ==> value == None && cache == old(cache)
      ensures !(user in old(cache) && readable) && answers ==>
                && value == Some(CartOf(Row(user)))
                && cache == if stored then old(cache)[user := CartOf(Row(user))] else old(cache)
    {
      if user in cache && readable {
        return Some(cache[user]);
      }
      if !answers {
        return None;
      }
      var read := GetCart(user);
      if stored {
        cache := cache[user := read];
      }
      return Some(read);
    }

    method SetItem(user: Id, product: Id, quantity: int, commits: bool, deleted: bool) returns (value: Option<Cart>)
      modifies this
      ensures Row(user) == SetTx(old(Row(user)), product, quantity, commits)
      ensures forall u :: u != user ==> Row(u) == old(Row(u))
      ensures value == if Acceptable(quantity) && commits then Some(CartOf(Row(user))) else None
      ensures cache == if value.Some? && deleted then old(cache) - {user} else old(cache)
    {
      var beganVersions, beganItems := versions, items;
      versions := versions[user := if user in versions then versions[user] + 1 else 1];
      if quantity < 1 || quantity > MAX_QUANTITY {
        versions := beganVersions;
        return None;
      }
      items := items[user := (if user in items then items[user] else map[])[product := quantity]];
      var read := GetCart(user);
      if !commits {
        versions, items := beganVersions, beganItems;
        return None;
      }
      if deleted {
        cache := cache - {user};
      }
      return Some(read);
    }

    method DeleteItem(user: Id, product: Id, commits: bool, deleted: bool) returns (value: Option<Cart>)
      modifies this
      ensures Row(user) == DeleteTx(old(Row(user)), product, commits)
      ensures forall u :: u != user ==> Row(u) == old(Row(u))
      ensures value == if commits then Some(CartOf(Row(user))) else None
      ensures cache == if value.Some? && deleted then old(cache) - {user} else old(cache)
    {
      var beganVersions, beganItems := versions, items;
      if user in items && product in items[user] {
        items := items[user := items[user] - {product}];
        if user in versions {
          versions := versions[user := versions[user] + 1];
        }
      }
      var read := GetCart(user);
      if !commits {
        versions, items := beganVersions, beganItems;
        return None;
      }
      if deleted {
        cache := cache - {user};
      }
      return Some(read);
    }
  }
}
