/**
 * The `extract` action: each order, seen as the dictionary the store returns,
 * is projected onto a fixed list of columns with `''` for absent fields.
 */
module Extract {
  import opened Wrappers
  import opened Orders

  /** A value in an order document. */
  datatype Cell = Text(text: string) | Stamp(time: Time) | Words(words: seq<string>) | Key(id: Id)

  /** The header row; note `stop`, a field no operation writes. */
  const COLUMNS: seq<string> := ["_id", "status", "waiter", "start", "stop", "arguments", "error"]

  /** The order as a document: the fields it holds, by name. */
  function Document(id: Id, o: Order): map<string, Cell>
  {
    var held := map["_id" := Key(id), "status" := Text(Label(o.status)), "arguments" := Words(o.arguments)];
    var started := if o.start.Some? then held["start" := Stamp(o.start.value)] else held;
    var ended := if o.end.Some? then started["end" := Stamp(o.end.value)] else started;
    var served := if o.waiter.Some? then ended["waiter" := Text(o.waiter.value)] else ended;
    if o.error.Some? then served["error" := Text(o.error.value)] else served
  }

  /** Every column mapped to `''`, the defaults the document is laid over. */
  function Defaults(): map<string, Cell>
  {
    map k | k in COLUMNS :: Text("")
  }

  /**
   * A column's value in the defaults overlaid by the document, as
   * `dict(default_values.items() + o.items())[key]`: the document's own value
   * when it has the field, `''` when it does not.
   */
  function Lookup(doc: map<string, Cell>, key: string): (v: Cell)
    requires key in COLUMNS
    ensures key in doc ==> v == doc[key]
    ensures key !in doc ==> v == Text("")
  {
    (Defaults() + doc)[key]
  }

  function TextOr(v: Option<string>): Cell
  {
    if v.Some? then Text(v.value) else Text("")
  }

  function StampOr(v: Option<Time>): Cell
  {
    if v.Some? then Stamp(v.value) else Text("")
  }

  /** The fields every order document holds. */
  lemma DocumentKeyFields(id: Id, o: Order)
    ensures Lookup(Document(id, o), "_id") == Key(id)
    ensures Lookup(Document(id, o), "status") == Text(Label(o.status))
    ensures Lookup(Document(id, o), "arguments") == Words(o.arguments)
  {
  }

  /** The timestamp columns: `start` when stamped, and `stop`, which is never present. */
  lemma DocumentTimeFields(id: Id, o: Order)
    ensures Lookup(Document(id, o), "start") == StampOr(o.start)
    ensures Lookup(Document(id, o), "stop") == Text("")
  {
  }

  /** The text columns written by a finished cycle. */
  lemma DocumentTextFields(id: Id, o: Order)
    ensures Lookup(Document(id, o), "waiter") == TextOr(o.waiter)
    ensures Lookup(Document(id, o), "error") == TextOr(o.error)
  {
  }

  /**
   * One CSV line: the document's value under each column, `''` where absent.
   * Nothing writes `stop`, so that column is always `''`.
   */
  function Row(id: Id, o: Order): (row: seq<Cell>)
    ensures |row| == |COLUMNS|
    ensures forall i :: 0 <= i < |COLUMNS| ==> row[i] == Lookup(Document(id, o), COLUMNS[i])
    ensures row[4] == Text("")
  {
    DocumentKeyFields(id, o);
    DocumentTimeFields(id, o);
    DocumentTextFields(id, o);
    [Key(id), Text(Label(o.status)), TextOr(o.waiter), StampOr(o.start), Text(""), Words(o.arguments), TextOr(o.error)]
  }

  /**
   * An order's finish time is in its document under `end` but in no column of
   * its row (unless it happens to equal the start time).
   */
  lemma FinishTimeNotExported(id: Id, o: Order, t: Time)
    requires o.end == Some(t) && o.start != Some(t)
    ensures Document(id, o)["end"] == Stamp(t) && Stamp(t) !in Row(id, o)
  {
  }
}
