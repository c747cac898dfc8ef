/**
 * The command-line actions that loop over the waiter's operations: loading
 * rows of arguments, delivering until no order is READY, and extracting the
 * table of orders.
 */
module Driver {
  import opened Wrappers
  import opened Orders
  import opened Delivery
  import opened Extract
  import opened Store
  import opened Lifecycle

  /** The orders that loading `rows` adds when the next free id is `base`. */
  function Loaded(base: Id, rows: seq<seq<string>>): map<Id, Order>
    decreases |rows|
  {
    if rows == [] then map[]
    else Loaded(base, rows[..|rows| - 1])[base + |rows| - 1 := NewOrder(rows[|rows| - 1])]
  }

  /** Loading `rows` adds exactly one order per row, the i-th holding the i-th row under id `base + i`. */
  lemma {:induction false} LoadedOrders(base: Id, rows: seq<seq<string>>)
    ensures forall k :: k in Loaded(base, rows) <==> base <= k < base + |rows|
    ensures forall i :: 0 <= i < |rows| ==> Loaded(base, rows)[base + i] == NewOrder(rows[i])
    ensures |Loaded(base, rows)| == |rows|
    decreases |rows|
  {
    if rows != [] {
      var n := |rows| - 1;
      LoadedOrders(base, rows[..n]);
      assert base + n !in Loaded(base, rows[..n]);
      forall i | 0 <= i < n ensures Loaded(base, rows)[base + i] == NewOrder(rows[i]) {
        assert rows[..n][i] == rows[i];
      }
    }
  }

  /**
   * A collection whose ids were all below `base`, with the orders of `rows`
   * added under ids `base`, `base + 1`, ..., is the old one plus Loaded, and
   * has `|rows|` more orders.
   */
  lemma LoadResult(before: map<Id, Order>, after: map<Id, Order>, base: Id, rows: seq<seq<string>>)
    requires forall id :: id in before ==> id < base
    requires forall id :: id in after <==> id in before || base <= id < base + |rows|
    requires forall id :: id in before ==> after[id] == before[id]
    requires forall j :: 0 <= j < |rows| ==> after[base + j] == NewOrder(rows[j])
    ensures after == before + Loaded(base, rows)
    ensures |after| == |before| + |rows|
  {
    LoadedOrders(base, rows);
    var added := Loaded(base, rows);
    forall id | id in after ensures after[id] == (before + added)[id] {
      if id !in before {
        assert after[base + (id - base)] == NewOrder(rows[id - base]);
      }
    }
    assert after == before + added;
    assert before.Keys * added.Keys == {};
    assert after.Keys == before.Keys + added.Keys;
  }

  /** The `load` action: one `take_order` per row; reports how many were loaded. */
  method Load(w: Waiter, rows: seq<seq<string>>) returns (c: nat)
    requires w.Valid()
    modifies w.db
    ensures w.Valid() && w.db.nextId == old(w.db.nextId) + |rows|
    ensures c == |rows|
    ensures w.db.docs == old(w.db.docs) + Loaded(old(w.db.nextId), rows)
    ensures |w.db.docs| == |old(w.db.docs)| + |rows|
  {
    ghost var base, initial := w.db.nextId, w.db.docs;
    c := 0;
    for i := 0 to |rows|
      invariant w.Valid() && w.db.nextId == base + i
      invariant c == i
      invariant forall id :: id in w.db.docs <==> id in initial || base <= id < base + i
      invariant forall id :: id in initial ==> w.db.docs[id] == initial[id]
      invariant forall j :: 0 <= j < i ==> w.db.docs[base + j] == NewOrder(rows[j])
    {
      w.TakeOrder(rows[i]);
      c := c + 1;
    }
    LoadResult(initial, w.db.docs, base, rows);
  }

  /** A READY order that some cycle of waiter `name` has since finished. */
  ghost predicate Finished(before: Order, after: Order, name: string)
  {
    && after.status in {DONE, ERROR}
    && after.arguments == before.arguments
    && after.start.Some? && after.end.Some?
    && after.waiter == Some(name)
  }

  /**
   * The `deliver` action: run cycles until none finds a READY order. Cycle k
   * reads the clock at `clock(2 * k)` on claiming and `clock(2 * k + 1)` on
   * finishing. Every READY order ends DONE or ERROR; no other order changes;
   * the count reported is the number of orders that were READY.
   */
  method DeliverAll(w: Waiter, deliverCmd: seq<string>, sink: string -> Outcome, clock: nat -> Time)
    returns (c: nat)
    requires w.Valid()
    modifies w.db
    ensures w.Valid()
    ensures c == Count(old(w.db.docs), READY)
    ensures IdsWith(w.db.docs, READY) == {}
    ensures w.db.docs.Keys == old(w.db.docs).Keys
    ensures forall id :: id in old(w.db.docs) && old(w.db.docs)[id].status != READY ==>
      w.db.docs[id] == old(w.db.docs)[id]
    ensures forall id :: id in old(w.db.docs) && old(w.db.docs)[id].status == READY ==>
      Finished(old(w.db.docs)[id], w.db.docs[id], w.name)
  {
    c := 0;
    while true
      invariant w.Valid()
      invariant w.db.docs.Keys == old(w.db.docs).Keys
      invariant c + Count(w.db.docs, READY) == Count(old(w.db.docs), READY)
      invariant forall id :: id in old(w.db.docs) && old(w.db.docs)[id].status != READY ==>
        w.db.docs[id] == old(w.db.docs)[id]
      invariant forall id :: id in old(w.db.docs) && old(w.db.docs)[id].status == READY ==>
        w.db.docs[id] == old(w.db.docs)[id] || Finished(old(w.db.docs)[id], w.db.docs[id], w.name)
      decreases Count(w.db.docs, READY)
    {
      ghost var before := w.db.docs;
      var processed;
      ghost var claimed;
      processed, claimed := w.FetchAndDeliverOrder(deliverCmd, sink, clock(2 * c), clock(2 * c + 1));
      if !processed {
        break;
      }
      assert IdsWith(w.db.docs, READY) == IdsWith(before, READY) - {claimed};
      c := c + 1;
    }
    forall id | id in old(w.db.docs) && old(w.db.docs)[id].status == READY
      ensures Finished(old(w.db.docs)[id], w.db.docs[id], w.name)
    {
      assert id !in IdsWith(w.db.docs, READY);
    }
  }

  /**
   * The `extract` action: the header, then one row per order. Every row is
   * the projection of some order, and every order has its row.
   */
  method ExtractTable(w: Waiter) returns (header: seq<string>, rows: seq<seq<Cell>>)
    ensures header == COLUMNS
    ensures |rows| == |w.db.docs|
    ensures forall k :: 0 <= k < |rows| ==> exists id :: id in w.db.docs && rows[k] == Row(id, w.db.docs[id])
    ensures forall id :: id in w.db.docs ==> Row(id, w.db.docs[id]) in rows
  {
    header := COLUMNS;
    var listing := w.ListOrders();
    rows := [];
    for k := 0 to |listing|
      invariant |rows| == k
      invariant forall j :: 0 <= j < k ==> rows[j] == Row(listing[j].0, listing[j].1)
    {
      rows := rows + [Row(listing[k].0, listing[k].1)];
    }
    forall id | id in w.db.docs ensures Row(id, w.db.docs[id]) in rows {
      var k :| 0 <= k < |listing| && listing[k].0 == id;
      assert rows[k] == Row(id, w.db.docs[id]);
    }
  }

  /** After `clean`, `list_orders` returns nothing. */
  method CleanThenList(w: Waiter) returns (listing: seq<(Id, Order)>)
    requires w.Valid()
    modifies w.db
    ensures w.Valid() && w.db.docs == map[]
    ensures listing == []
  {
    w.CleanOrders();
    listing := w.ListOrders();
  }
}
