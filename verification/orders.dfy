/**
 * The order document and the whole-collection views the waiter relies on:
 * counting orders by status and the bulk "set status where status in ..."
 * update used by reset.
 */
module Orders {
  import opened Wrappers

  /** Identity the store assigns to a document on insertion (`_id`). */
  type Id = nat

  /** A clock reading in seconds since the epoch, as `time.time()` returns. */
  type Time = real

  datatype Status = READY | RUNNING | DONE | ERROR

  /** The text stored in the `status` field. */
  function Label(s: Status): string
  {
    match s
    case READY => "READY"
    case RUNNING => "RUNNING"
    case DONE => "DONE"
    case ERROR => "ERROR"
  }

  /** Position of a status when labels are compared as text (see RankFollowsLabels). */
  function LabelRank(s: Status): nat
  {
    match s
    case DONE => 0
    case ERROR => 1
    case READY => 2
    case RUNNING => 3
  }

  /** Strict lexicographic order on strings, the order the store sorts text by. */
  predicate LexLess(a: string, b: string)
    decreases |a|
  {
    if a == [] then b != []
    else b != [] && (a[0] < b[0] || (a[0] == b[0] && LexLess(a[1..], b[1..])))
  }

  /** Comparing ranks is comparing the status labels as text. */
  lemma RankFollowsLabels(s: Status, t: Status)
    ensures LabelRank(s) < LabelRank(t) <==> LexLess(Label(s), Label(t))
  {
    assert LexLess("DONE", "ERROR");
    assert LexLess("ERROR", "READY");
    assert LexLess("READY", "RUNNING") by {
      assert LexLess("EADY", "UNNING");
    }
    match (s, t)
    case (READY, RUNNING) => {}
    case (RUNNING, READY) => {
      assert !LexLess("UNNING", "EADY");
    }
    case _ => {}
  }

  /**
   * One order document. `arguments` is the payload; the optional fields are
   * absent until the lifecycle writes them.
   */
  datatype Order = Order(
    status: Status,
    arguments: seq<string>,
    start: Option<Time>,
    end: Option<Time>,
    waiter: Option<string>,
    error: Option<string>)

  /** The document `take_order` inserts: only a status and the arguments. */
  function NewOrder(dishes: seq<string>): (o: Order)
    ensures o.status == READY && o.arguments == dishes && Stamped(o)
  {
    Order(READY, dishes, None, None, None, None)
  }

  /**
   * The audit fields an order's status implies: a claimed order has `start`,
   * a finished one `end` and `waiter`, an ERROR one its `error` text.
   */
  predicate Stamped(o: Order)
  {
    && (o.status != READY ==> o.start.Some?)
    && (o.status in {DONE, ERROR} ==> o.end.Some? && o.waiter.Some?)
    && (o.status == ERROR ==> o.error.Some?)
  }

  predicate AllStamped(docs: map<Id, Order>)
  {
    forall id :: id in docs ==> Stamped(docs[id])
  }

  /** The ids of the orders whose status is `s`. */
  function IdsWith(docs: map<Id, Order>, s: Status): set<Id>
  {
    set id | id in docs && docs[id].status == s
  }

  /** The number of orders whose status is `s`. */
  function Count(docs: map<Id, Order>, s: Status): nat
  {
    |IdsWith(docs, s)|
  }

  lemma DisjointUnionSize(a: set<Id>, b: set<Id>)
    requires a * b == {}
    ensures |a + b| == |a| + |b|
  {
  }

  /** Every order has exactly one of the four statuses. */
  lemma CountsPartition(docs: map<Id, Order>)
    ensures Count(docs, DONE) + Count(docs, ERROR) + Count(docs, READY) + Count(docs, RUNNING) == |docs|
  {
    var d, e, r, u := IdsWith(docs, DONE), IdsWith(docs, ERROR), IdsWith(docs, READY), IdsWith(docs, RUNNING);
    DisjointUnionSize(d, e);
    DisjointUnionSize(d + e, r);
    DisjointUnionSize(d + e + r, u);
    forall id | id in docs ensures id in d + e + r + u {
      match docs[id].status
      case DONE => assert id in d;
      case ERROR => assert id in e;
      case READY => assert id in r;
      case RUNNING => assert id in u;
    }
    assert d + e + r + u == docs.Keys;
  }

  /**
   * The bulk update `update({status: {$in: from}}, {$set: {status: to}}, multi)`:
   * matching orders get status `to`; nothing else changes.
   */
  function SetStatusWhere(docs: map<Id, Order>, from: set<Status>, to: Status): (r: map<Id, Order>)
    ensures r.Keys == docs.Keys
    ensures forall id :: id in docs && docs[id].status in from ==> r[id].status == to
    ensures forall id :: id in docs && docs[id].status !in from ==> r[id] == docs[id]
    ensures forall id :: id in docs ==> r[id] == docs[id].(status := r[id].status)
  {
    map id | id in docs :: if docs[id].status in from then docs[id].(status := to) else docs[id]
  }

  /** What `reset_orders` does to the collection. */
  function Reset(docs: map<Id, Order>): (r: map<Id, Order>)
    ensures r.Keys == docs.Keys
    ensures forall id :: id in r ==> r[id].status !in {ERROR, RUNNING}
  {
    SetStatusWhere(docs, {ERROR, RUNNING}, READY)
  }

  /** Resetting twice is resetting once. */
  lemma ResetIdempotent(docs: map<Id, Order>)
    ensures Reset(Reset(docs)) == Reset(docs)
  {
  }

  /** A reset only sends orders back to READY, so the audit fields stay consistent. */
  lemma ResetKeepsStamped(docs: map<Id, Order>)
    requires AllStamped(docs)
    ensures AllStamped(Reset(docs))
  {
  }

  /**
   * After a reset no order is RUNNING or in ERROR, every such order is READY,
   * and the DONE orders are the same ones as before.
   */
  lemma ResetIds(docs: map<Id, Order>)
    ensures IdsWith(Reset(docs), RUNNING) == {} && IdsWith(Reset(docs), ERROR) == {}
    ensures IdsWith(Reset(docs), DONE) == IdsWith(docs, DONE)
    ensures IdsWith(Reset(docs), READY) == IdsWith(docs, READY) + IdsWith(docs, RUNNING) + IdsWith(docs, ERROR)
  {
  }

  /** A reset moves the RUNNING and ERROR counts onto READY. */
  lemma ResetCounts(docs: map<Id, Order>)
    ensures Count(Reset(docs), RUNNING) == 0 && Count(Reset(docs), ERROR) == 0
    ensures Count(Reset(docs), DONE) == Count(docs, DONE)
    ensures Count(Reset(docs), READY) == Count(docs, READY) + Count(docs, RUNNING) + Count(docs, ERROR)
  {
    ResetIds(docs);
    var a, b, c := IdsWith(docs, READY), IdsWith(docs, RUNNING), IdsWith(docs, ERROR);
    assert a * b == {} && (a + b) * c == {};
  }
}
