/**
 * The waiter: claims READY orders, delivers them and records the outcome;
 * also inserts, lists, summarises, resets and removes orders.
 */
module Lifecycle {
  import opened Wrappers
  import opened Orders
  import opened Delivery
  import opened Summary
  import opened Store

  /**
   * `after` is what one claim-and-deliver cycle leaves of the order that was
   * `before` when claimed: arguments kept, `start`, `end` and `waiter`
   * stamped, and DONE with `error` untouched, or ERROR with the failure text.
   */
  ghost predicate Settled(before: Order, after: Order, outcome: Outcome, startTime: Time, endTime: Time, name: string)
  {
    && after.arguments == before.arguments
    && after.start == Some(startTime)
    && after.end == Some(endTime)
    && after.waiter == Some(name)
    && match outcome
       case Delivered => after.status == DONE && after.error == before.error
       case Failed(reason) => after.status == ERROR && after.error == Some(ErrorText(reason))
  }

  class Waiter {
    /** The `orders` collection of the kitchen this waiter works for. */
    const db: OrderCollection
    /** Recorded in the `waiter` field of every order this waiter finishes. */
    const name: string

    /** The collection is well formed and every order's audit fields match its status. */
    ghost predicate Valid()
      reads this, db
    {
      db.Valid() && AllStamped(db.docs)
    }

    constructor (db: OrderCollection, name: string)
      requires db.Valid() && AllStamped(db.docs)
      ensures this.db == db && this.name == name && Valid()
    {
      this.db := db;
      this.name := name;
    }

    /**
     * One cycle: claim some READY order (RUNNING, `start` stamped), run the
     * command `sink` stands for, then record DONE or ERROR with `end` and
     * `waiter` and save. Reports whether an order was processed; `claimed`
     * names it.
     */
    method FetchAndDeliverOrder(deliverCmd: seq<string>, sink: string -> Outcome, startTime: Time, endTime: Time)
      returns (processed: bool, ghost claimed: Id)
      requires Valid()
      modifies db
      ensures Valid() && db.nextId == old(db.nextId)
      ensures processed <==> IdsWith(old(db.docs), READY) != {}
      ensures !processed ==> db.docs == old(db.docs)
      ensures processed ==> claimed in IdsWith(old(db.docs), READY)
      ensures processed ==> db.docs.Keys == old(db.docs).Keys
      ensures processed ==> forall id :: id in old(db.docs) && id != claimed ==> db.docs[id] == old(db.docs)[id]
      ensures processed ==>
        Settled(old(db.docs)[claimed], db.docs[claimed],
                sink(CommandLine(deliverCmd, old(db.docs)[claimed].arguments)), startTime, endTime, name)
    {
      var found := db.FindAndModifyReady(startTime);
      if found.None? {
        return false, 0;
      }
      var id, order := found.value.0, found.value.1;
      claimed := id;
      var outcome := sink(CommandLine(deliverCmd, order.arguments));
      match outcome {
        case Delivered =>
          order := order.(status := DONE);
        case Failed(reason) =>
          order := order.(error := Some(ErrorText(reason)));
          order := order.(status := ERROR);
      }
      order := order.(end := Some(endTime));
      order := order.(waiter := Some(name));
      db.Save(id, order);
      processed := true;
    }

    /** `take_order`: insert one READY order holding only the given arguments. */
    method TakeOrder(dishes: seq<string>)
      requires Valid()
      modifies db
      ensures Valid() && db.nextId == old(db.nextId) + 1
      ensures old(db.nextId) !in old(db.docs)
      ensures db.docs == old(db.docs)[old(db.nextId) := NewOrder(dishes)]
    {
      var _ := db.Insert(NewOrder(dishes));
    }

    /** `order_status`: the per-status counts in summary order. */
    method OrderStatus() returns (summary: seq<StatusCount>)
      ensures IsSummary(summary, Tally(db.docs))
      ensures Total(summary) == |db.docs|
    {
      summary := StatusSummary(db.docs);
    }

    /** `list_orders`: every order, once each. */
    method ListOrders() returns (listing: seq<(Id, Order)>)
      ensures Lists(listing, db.docs)
    {
      listing := db.Find();
    }

    /** `clean_orders`: remove every order. */
    method CleanOrders()
      requires Valid()
      modifies db
      ensures Valid() && db.docs == map[]
    {
      db.Remove();
    }

    /** `reset_orders`: ERROR and RUNNING orders become READY; nothing else changes. */
    method ResetOrders()
      requires Valid()
      modifies db
      ensures Valid() && db.docs == Reset(old(db.docs)) && db.nextId == old(db.nextId)
    {
      ResetKeepsStamped(db.docs);
      db.UpdateStatusWhere({ERROR, RUNNING}, READY);
    }
  }
}
