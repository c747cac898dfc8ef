/**
 * The `orders` collection of the shared store, held in memory: documents by
 * id, and the primitives the waiter calls on it, each one sequential step.
 */
module Store {
  import opened Wrappers
  import opened Orders

  /** `listing` holds each document of `docs` exactly once, with its id. */
  ghost predicate Lists(listing: seq<(Id, Order)>, docs: map<Id, Order>)
  {
    && |listing| == |docs|
    && (forall k :: 0 <= k < |listing| ==> listing[k].0 in docs && docs[listing[k].0] == listing[k].1)
    && (forall id :: id in docs ==> exists k :: 0 <= k < |listing| && listing[k].0 == id)
    && (forall k, l :: 0 <= k < l < |listing| ==> listing[k].0 != listing[l].0)
  }

  class OrderCollection {
    var docs: map<Id, Order>
    /** The id the next insertion receives. */
    var nextId: Id

    ghost predicate Valid()
      reads this
    {
      forall id :: id in docs ==> id < nextId
    }

    /** An empty collection. */
    constructor ()
      ensures Valid() && docs == map[] && nextId == 0
    {
      docs := map[];
      nextId := 0;
    }

    /**
     * `find_and_modify({status: READY}, {$set: {status: RUNNING, start: now}}, new=True)`:
     * some READY document, if any, becomes RUNNING with `start` stamped, and is
     * returned as updated.
     */
    method FindAndModifyReady(now: Time) returns (found: Option<(Id, Order)>)
      requires Valid()
      modifies this
      ensures Valid() && nextId == old(nextId)
      ensures found.None? <==> IdsWith(old(docs), READY) == {}
      ensures found.None? ==> docs == old(docs)
      ensures found.Some? ==>
        && found.value.0 in old(docs)
        && old(docs)[found.value.0].status == READY
        && found.value.1 == old(docs)[found.value.0].(status := RUNNING, start := Some(now))
        && docs == old(docs)[found.value.0 := found.value.1]
    {
      var ready := IdsWith(docs, READY);
      if ready == {} {
        found := None;
      } else {
        var id :| id in ready;
        var order := docs[id].(status := RUNNING, start := Some(now));
        docs := docs[id := order];
        found := Some((id, order));
      }
    }

    /** `save(order)`: write the whole document under its id. */
    method Save(id: Id, order: Order)
      requires Valid()
      modifies this
      ensures Valid() && docs == old(docs)[id := order]
      ensures id in old(docs) ==> nextId == old(nextId)
    {
      docs := docs[id := order];
      if nextId <= id {
        nextId := id + 1;
      }
    }

    /** `insert(order)`: add the document under a new id. */
    method Insert(order: Order) returns (id: Id)
      requires Valid()
      modifies this
      ensures Valid()
      ensures id == old(nextId) && id !in old(docs) && nextId == old(nextId) + 1
      ensures docs == old(docs)[id := order]
    {
      id := nextId;
      docs := docs[id := order];
      nextId := nextId + 1;
    }

    /** `remove()`: delete every document. */
    method Remove()
      requires Valid()
      modifies this
      ensures Valid() && docs == map[] && nextId == old(nextId)
    {
      docs := map[];
    }

    /** `update({status: {$in: from}}, {$set: {status: to}}, multi=True)`. */
    method UpdateStatusWhere(from: set<Status>, to: Status)
      requires Valid()
      modifies this
      ensures Valid() && docs == SetStatusWhere(old(docs), from, to) && nextId == old(nextId)
    {
      docs := SetStatusWhere(docs, from, to);
    }

    /** `find()`: every document, once each, in no particular order. */
    method Find() returns (listing: seq<(Id, Order)>)
      ensures Lists(listing, docs)
    {
      listing := [];
      var rest := docs.Keys;
      while rest != {}
        invariant rest <= docs.Keys
        invariant |listing| + |rest| == |docs|
        invariant forall k :: 0 <= k < |listing| ==> listing[k].0 in docs.Keys - rest && docs[listing[k].0] == listing[k].1
        invariant forall id :: id in docs.Keys - rest ==> exists k :: 0 <= k < |listing| && listing[k].0 == id
        invariant forall k, l :: 0 <= k < l < |listing| ==> listing[k].0 != listing[l].0
        decreases rest
      {
        var id :| id in rest;
        ghost var before := listing;
        listing := listing + [(id, docs[id])];
        forall x | x in docs.Keys - (rest - {id})
          ensures exists k :: 0 <= k < |listing| && listing[k].0 == x
        {
          if x == id {
            assert listing[|before|].0 == x;
          } else {
            assert x in docs.Keys - rest;
            var k :| 0 <= k < |before| && before[k].0 == x;
            assert listing[k].0 == x;
          }
        }
        rest := rest - {id};
      }
      assert docs.Keys - rest == docs.Keys;
    }
  }
}
