# simple-waiter: the order lifecycle, modelled in Dafny

simple-waiter spreads units of work ("orders") over any number of worker
processes ("waiters"). The workers coordinate only through a shared MongoDB
collection. Each order document has a `status`, its `arguments` (the words
appended to a delivery command) and the audit fields `start`, `end`,
`waiter` and `error`. A waiter repeatedly claims one `READY` order, which
atomically makes it `RUNNING` and stamps `start`. It then runs the delivery
command and records `DONE`, or `ERROR` with the failure text, together with
`end` and its own name. An operator can reset `RUNNING` and `ERROR` orders
to `READY`, summarise the orders by status, load orders from rows of
arguments, extract them as a table, and remove them all.

This project models that core of `waiter.py`:

- `orders.dfy` (`Orders`): the order document, counting by status, the bulk
  status update behind reset, and the audit invariant `Stamped`.
- `store.dfy` (`Store`): the `orders` collection as a class over a
  `map<Id, Order>`. It offers the store primitives the waiter uses:
  find-and-modify, save, insert, remove, update-many and find.
- `lifecycle.dfy` (`Lifecycle`): the `Waiter` class and its methods.
- `delivery.dfy` (`Delivery`): how the delivery command line is put
  together, and the error text recorded on failure.
- `summary.dfy` (`Summary`): the group/count/sort pipeline of `order_status`.
- `extract.dfy` (`Extract`): the projection of an order onto the export
  columns.
- `driver.dfy` (`Driver`): the command-line loops for `load`, `deliver` and
  `extract`.

How the model represents things:

- A claim is one sequential step that picks any `READY` order (`:|`),
  because `find_and_modify` does not say which one it picks.
- The execution sink is a function parameter from the command string to
  `Delivered` or `Failed(reason)`. `reason` stands for the `repr` of the
  failed process error.
- Clock readings are `real` parameters. In `DeliverAll`, cycle k reads
  `clock(2k)` when it claims and `clock(2k + 1)` when it finishes.

Two consequences of the code that a reader may not expect:

- The export columns name `stop` (waiter.py:131), but finished orders hold
  their finish time under `end` (waiter.py:37). The `stop` column is
  therefore always empty, and the finish time is never exported
  (`Extract.FinishTimeNotExported`).
- Reset changes only `status` (waiter.py:72). An order that failed, was
  reset and then succeeded is `DONE` but still carries the old `error`. So
  the model proves only that `ERROR` implies `error` is set, not the
  converse. In the same way a reset order is `READY` with `start` still set
  (`Orders.Stamped`).

`Lifecycle.Waiter.Valid` includes `Orders.AllStamped`: every order's audit
fields match its status. This assumes the collection was written only by
waiters, through the modelled operations; it holds of every collection
built from empty that way, but `Waiter.__init__` (waiter.py:21-23) itself
accepts any database.

The command-line round trip (`Delivery.SplitJoin`,
`Delivery.CommandLineWords`) holds only for words without spaces: a CSV
cell such as `a b` joins into a command string that splits into two words.

## Model

| member | source | states |
|---|---|---|
| `Orders.RankFollowsLabels` | waiter.py:62 | comparing status ranks is comparing the status labels as text, so "status descending" is label order descending |
| `Orders.CountsPartition` | waiter.py:60-61 | the four per-status counts add up to the number of orders |
| `Orders.NewOrder` | waiter.py:56 | the document `take_order` builds is READY, holds the given arguments, and already satisfies the audit invariant |
| `Orders.SetStatusWhere` | waiter.py:72 | the multi-update keeps every id; orders whose status is in the filter get the new status; all other fields and all other orders are unchanged |
| `Orders.Reset` | waiter.py:72 | the reset update keeps every id and leaves no order RUNNING or ERROR |
| `Orders.ResetIdempotent` | waiter.py:72 | resetting twice gives the same collection as resetting once |
| `Orders.ResetIds` | waiter.py:72 | after a reset nothing is RUNNING or ERROR; the READY ids are the old READY, RUNNING and ERROR ids; the DONE ids are unchanged |
| `Orders.ResetCounts` | waiter.py:72 | a reset moves the RUNNING and ERROR counts onto READY and leaves the DONE count as it was |
| `Orders.ResetKeepsStamped` | waiter.py:72 | a reset keeps the audit fields consistent with every order's status |
| `Delivery.ErrorText` | waiter.py:17-18 | the recorded error text is non-empty and ends with the failure description |
| `Delivery.Join` | waiter.py:48 | `" ".join(words)`: the text begins with the first word; `JoinAppend` and `SplitJoin` give its structure |
| `Delivery.CommandLine` | waiter.py:47-48 | the prefix words then the order's arguments, joined by single spaces: the command begins with the program name (see `CommandLineParts`, `CommandLineWords`) |
| `Delivery.SplitJoin` | waiter.py:48 | splitting a space-joined non-empty list of space-free words gives back the words |
| `Delivery.JoinAppend` | waiter.py:47-48 | joining two non-empty word lists is joining each with one space between them |
| `Delivery.CommandLineWords` | waiter.py:47-48 | for space-free words, splitting the command line gives back the prefix words followed by the order's arguments |
| `Delivery.CommandLineParts` | waiter.py:47-48 | with a non-empty prefix and arguments, the command line is the joined prefix, one space, and the joined arguments |
| `Summary.Groups` | waiter.py:61 | the group stage has one entry per status that has orders, carrying that status's true, positive count |
| `Summary.GroupsTotal` | waiter.py:61 | the group counts add up to the per-status counts summed over the grouped statuses |
| `Summary.Sort` | waiter.py:62 | the sort stage returns a permutation of its input, strictly in summary order, with the same total |
| `Summary.SummaryOf` | waiter.py:60-63 | group then sort gives a summary: counts correct and positive, every present status listed, count descending then label descending |
| `Summary.StatusSummary` | waiter.py:59-63 | the summary of a collection, with one entry per status and counts that add up to the collection's size |
| `Summary.SummaryStatusesDistinct` | waiter.py:61 | no status appears twice in a summary |
| `Summary.SummaryUnique` | waiter.py:60-63 | two summaries of the same counts are equal, so the output is deterministic |
| `Summary.SummaryExample` | waiter.py:60-63 | 3 READY, 5 DONE and 2 ERROR orders summarise as DONE 5, READY 3, ERROR 2 |
| `Summary.TiesByLabel` | waiter.py:62 | for equal counts, the later entry's label is lexicographically smaller |
| `Extract.Lookup` | waiter.py:131-137 | a column's value in the defaults (`''` for each of the seven `COLUMNS`) overlaid by the document: the document's own value when it has the field, `''` when it does not |
| `Extract.Row` | waiter.py:131-138 | a row has one cell per name in `COLUMNS` (the `keys` list); each cell is the document's value under that column, or `''` when absent; the `stop` cell is always `''` |
| `Extract.FinishTimeNotExported` | waiter.py:37 | any order whose finish time `t` is stored under `end` (and differs from its start time) has no cell holding `t` in its row |
| `Store.OrderCollection.FindAndModifyReady` | waiter.py:26 | finds nothing exactly when no order is READY (and then changes nothing); otherwise one READY order becomes RUNNING with `start` stamped, is returned as updated, and nothing else changes |
| `Store.OrderCollection.Save` | waiter.py:39 | the document is written whole under its id |
| `Store.OrderCollection.Insert` | waiter.py:57 | the document is added under a new id; existing orders are unchanged |
| `Store.OrderCollection.Remove` | waiter.py:69 | the collection becomes empty |
| `Store.OrderCollection.UpdateStatusWhere` | waiter.py:72 | the collection becomes its status-where update |
| `Store.OrderCollection.Find` | waiter.py:66 | the listing holds every order exactly once, with its id and document |
| `Lifecycle.Waiter.constructor` | waiter.py:21-23 | a waiter works on the given collection under the given name |
| `Lifecycle.Waiter.FetchAndDeliverOrder` | waiter.py:25-41 | returns false and changes nothing exactly when no order is READY; otherwise exactly one READY order is settled: arguments kept; `start`, `end` and `waiter = name` set; DONE with `error` untouched on success, ERROR with the exception text on failure; every other order untouched; audit invariant kept |
| `Lifecycle.Waiter.TakeOrder` | waiter.py:55-57 | adds exactly one new order, holding only status READY and the given arguments, under a fresh id; existing orders unchanged |
| `Lifecycle.Waiter.OrderStatus` | waiter.py:59-63 | returns the status summary of the collection; its counts add up to the number of orders |
| `Lifecycle.Waiter.ListOrders` | waiter.py:65-66 | returns every order exactly once |
| `Lifecycle.Waiter.CleanOrders` | waiter.py:68-69 | the collection becomes empty |
| `Lifecycle.Waiter.ResetOrders` | waiter.py:71-72 | ERROR and RUNNING orders become READY; nothing else changes; ids kept |
| `Driver.LoadedOrders` | waiter.py:105-110 | loading n rows adds n orders, the i-th holding the i-th row as a READY order |
| `Driver.LoadResult` | waiter.py:105-110 | the orders added one by one form the old collection plus the loaded rows, which is n orders larger |
| `Driver.Load` | waiter.py:104-110 | the load loop reports the number of rows; the collection gains exactly the loaded orders |
| `Driver.DeliverAll` | waiter.py:112-118 | the deliver loop stops when no order is READY; it reports how many orders were READY; each of those is now DONE or ERROR with this waiter's name, its arguments and both timestamps; every other order is unchanged |
| `Driver.ExtractTable` | waiter.py:128-138 | the header is the column list; there is one row per order; each row is the projection of an order and each order's projection is a row |
| `Driver.CleanThenList` | waiter.py:66-69 | after `clean_orders`, `list_orders` returns nothing |

## Left out

- The MongoDB connection and client (waiter.py:3-4, 22). The collection is an in-memory map. Store errors (connectivity, consistency) are not modelled.
- Concurrency. `find_and_modify` is atomic across processes in the store, but here every operation is one sequential step, so the claim protocol is shown for a single caller only.
- `subprocess.check_call` and the shell (waiter.py:51). Delivery is the sink parameter applied to the command string. Only the process-error failure that `deliver` turns into `DeliveryException` is modelled; any other exception would propagate and is not modelled.
- `time.time()` floats (waiter.py:26, 37). They are `real` parameters, with no relation to a real clock.
- argparse, CSV parsing and writing, `print` and `logging` (waiter.py:45, 50, 75-141). Only the load counting loop, the deliver loop and the row projection are modelled. CSV rows arrive as sequences of strings, and a row is a sequence of typed cells rather than formatted text.
- The `_id` values: the store's ObjectIds are modelled as natural numbers handed out in increasing order. `Save` upserts, and it advances the next id when it writes an unknown id.
- The `status` field could hold any string in the store. The model has only the four statuses that the code writes.
- Driver.DeliverAll: states that each formerly READY order is finished (DONE or ERROR, timestamps and waiter set). It does not state which outcome each order got, since that depends on the sink and on the cycle in which the order was claimed. That per-cycle detail is stated by `Lifecycle.Waiter.FetchAndDeliverOrder`.
