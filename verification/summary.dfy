/**
 * The status summary of `order_status`: one entry per status present, with
 * its count, sorted by count descending and then by status label descending.
 */
module Summary {
  import opened Orders

  /** One entry of the aggregation result: `{_id: status, count: n}`. */
  datatype StatusCount = StatusCount(status: Status, count: nat)

  /** The statuses in the order the grouping visits them. */
  const ALL_STATUSES: seq<Status> := [DONE, ERROR, READY, RUNNING]

  /** Number of orders per status in a collection. */
  function Tally(docs: map<Id, Order>): Status -> nat
  {
    s => Count(docs, s)
  }

  /** `a` sorts before `b`: larger count first, then larger label first. */
  predicate Above(a: StatusCount, b: StatusCount)
  {
    a.count > b.count || (a.count == b.count && LabelRank(a.status) > LabelRank(b.status))
  }

  predicate StrictlyOrdered(r: seq<StatusCount>)
  {
    forall i, j :: 0 <= i < j < |r| ==> Above(r[i], r[j])
  }

  /** Sum of the counts. */
  function Total(r: seq<StatusCount>): nat
  {
    if r == [] then 0 else r[0].count + Total(r[1..])
  }

  /**
   * `r` is a summary of the per-status counts `tally`: every entry carries
   * its status's true, positive count, every status with a positive count has
   * an entry, and the entries are in summary order.
   */
  ghost predicate IsSummary(r: seq<StatusCount>, tally: Status -> nat)
  {
    && StrictlyOrdered(r)
    && (forall i :: 0 <= i < |r| ==> r[i].count == tally(r[i].status) && r[i].count > 0)
    && (forall s :: tally(s) > 0 ==> StatusCount(s, tally(s)) in r)
  }

  /** The `$group` stage: one entry for each status of `ss` that has orders. */
  function Groups(tally: Status -> nat, ss: seq<Status>): (r: seq<StatusCount>)
    ensures forall i :: 0 <= i < |r| ==> r[i].status in ss && r[i].count == tally(r[i].status) && r[i].count > 0
    ensures forall s :: s in ss && tally(s) > 0 ==> StatusCount(s, tally(s)) in r
    ensures (forall i, j :: 0 <= i < j < |ss| ==> ss[i] != ss[j]) ==> Distinct(r)
  {
    if ss == [] then []
    else
      var rest := Groups(tally, ss[1..]);
      if tally(ss[0]) > 0 then [StatusCount(ss[0], tally(ss[0]))] + rest else rest
  }

  /** Sum over `ss` of the counts, the total the grouping must preserve. */
  function TallySum(tally: Status -> nat, ss: seq<Status>): nat
  {
    if ss == [] then 0 else tally(ss[0]) + TallySum(tally, ss[1..])
  }

  lemma {:induction false} GroupsTotal(tally: Status -> nat, ss: seq<Status>)
    ensures Total(Groups(tally, ss)) == TallySum(tally, ss)
  {
    if ss != [] {
      GroupsTotal(tally, ss[1..]);
      var rest := Groups(tally, ss[1..]);
      if tally(ss[0]) > 0 {
        assert ([StatusCount(ss[0], tally(ss[0]))] + rest)[1..] == rest;
      }
    }
  }

  /** Insert `e` into an ordered list at its place. */
  function InsertOrdered(e: StatusCount, s: seq<StatusCount>): (r: seq<StatusCount>)
    requires StrictlyOrdered(s) && e !in s
    ensures StrictlyOrdered(r)
    ensures multiset(r) == multiset(s) + multiset{e}
    ensures Total(r) == e.count + Total(s)
  {
    if s == [] then [e]
    else if Above(e, s[0]) then
      assert ([e] + s)[1..] == s;
      [e] + s
    else
      var tail := InsertOrdered(e, s[1..]);
      KeepsHeadFirst(s, e, tail);
      [s[0]] + tail
  }

  /** Putting back the head of `s` in front of `tail` keeps the list ordered. */
  lemma KeepsHeadFirst(s: seq<StatusCount>, e: StatusCount, tail: seq<StatusCount>)
    requires StrictlyOrdered(s) && s != [] && e !in s && !Above(e, s[0])
    requires StrictlyOrdered(tail) && multiset(tail) == multiset(s[1..]) + multiset{e}
    requires Total(tail) == e.count + Total(s[1..])
    ensures StrictlyOrdered([s[0]] + tail)
    ensures multiset([s[0]] + tail) == multiset(s) + multiset{e}
    ensures Total([s[0]] + tail) == e.count + Total(s)
  {
    var r := [s[0]] + tail;
    forall j | 0 <= j < |tail| ensures Above(s[0], tail[j]) {
      assert tail[j] in multiset(tail);
      if tail[j] != e {
        assert tail[j] in multiset(s[1..]);
        var k :| 1 <= k < |s| && s[k] == tail[j];
      }
    }
    forall i, j | 0 <= i < j < |r| ensures Above(r[i], r[j]) {
      if i == 0 {
        assert r[j] == tail[j - 1];
      } else {
        assert r[i] == tail[i - 1] && r[j] == tail[j - 1];
      }
    }
    assert s == [s[0]] + s[1..];
    assert r[1..] == tail;
  }

  /** No entry occurs twice. */
  predicate Distinct(s: seq<StatusCount>)
  {
    forall i, j :: 0 <= i < j < |s| ==> s[i] != s[j]
  }

  lemma TailDistinct(s: seq<StatusCount>)
    requires Distinct(s) && s != []
    ensures Distinct(s[1..]) && s[0] !in s[1..]
    ensures multiset(s) == multiset(s[1..]) + multiset{s[0]}
  {
    assert s == [s[0]] + s[1..];
  }

  /** Insertion sort into summary order. */
  function Sort(s: seq<StatusCount>): (r: seq<StatusCount>)
    requires Distinct(s)
    ensures StrictlyOrdered(r)
    ensures multiset(r) == multiset(s)
    ensures Total(r) == Total(s)
  {
    if s == [] then []
    else
      TailDistinct(s);
      var tail := Sort(s[1..]);
      assert s[0] !in multiset(tail);
      InsertOrdered(s[0], tail)
  }

  /** The `$group` then `$sort` pipeline over per-status counts. */
  function SummaryOf(tally: Status -> nat): (r: seq<StatusCount>)
    ensures IsSummary(r, tally)
    ensures Total(r) == tally(DONE) + tally(ERROR) + tally(READY) + tally(RUNNING)
  {
    AllStatusesListed(tally);
    var groups := Groups(tally, ALL_STATUSES);
    GroupsTotal(tally, ALL_STATUSES);
    var r := Sort(groups);
    SortedGroupsSummarise(tally, groups, r);
    r
  }

  /** The grouping visits each status once, so its total is the number of orders. */
  lemma AllStatusesListed(tally: Status -> nat)
    ensures forall i, j :: 0 <= i < j < |ALL_STATUSES| ==> ALL_STATUSES[i] != ALL_STATUSES[j]
    ensures TallySum(tally, ALL_STATUSES) == tally(DONE) + tally(ERROR) + tally(READY) + tally(RUNNING)
  {
  }

  /** Ordering the groups of all statuses gives a summary. */
  lemma SortedGroupsSummarise(tally: Status -> nat, groups: seq<StatusCount>, r: seq<StatusCount>)
    requires groups == Groups(tally, ALL_STATUSES)
    requires StrictlyOrdered(r) && multiset(r) == multiset(groups)
    ensures IsSummary(r, tally)
  {
    forall i | 0 <= i < |r| ensures r[i].count == tally(r[i].status) && r[i].count > 0 {
      assert r[i] in multiset(r);
      assert r[i] in groups;
    }
    forall s | tally(s) > 0 ensures StatusCount(s, tally(s)) in r {
      var e := StatusCount(s, tally(s));
      assert s in ALL_STATUSES by {
        match s
        case DONE => assert ALL_STATUSES[0] == s;
        case ERROR => assert ALL_STATUSES[1] == s;
        case READY => assert ALL_STATUSES[2] == s;
        case RUNNING => assert ALL_STATUSES[3] == s;
      }
      assert e in groups;
      assert e in multiset(groups);
      assert e in multiset(r);
    }
  }

  /** `order_status`: the summary of a collection; the counts add up to its size. */
  function StatusSummary(docs: map<Id, Order>): (r: seq<StatusCount>)
    ensures IsSummary(r, Tally(docs))
    ensures Total(r) == |docs|
    ensures forall i, j :: 0 <= i < j < |r| ==> r[i].status != r[j].status
  {
    CountsPartition(docs);
    var r := SummaryOf(Tally(docs));
    SummaryStatusesDistinct(r, Tally(docs));
    r
  }

  /** A summary has one entry per status. */
  lemma SummaryStatusesDistinct(r: seq<StatusCount>, tally: Status -> nat)
    requires IsSummary(r, tally)
    ensures forall i, j :: 0 <= i < j < |r| ==> r[i].status != r[j].status
  {
  }

  lemma HeadIsMember(x: seq<StatusCount>)
    requires x != []
    ensures x[0] in x
  {
  }

  /** Two ordered lists with the same entries are equal. */
  lemma {:induction false} OrderedUnique(x: seq<StatusCount>, y: seq<StatusCount>)
    requires StrictlyOrdered(x) && StrictlyOrdered(y)
    requires forall e :: e in x <==> e in y
    ensures x == y
    decreases |x|
  {
    if x != [] && y != [] {
      assert x[0] in y;
      assert y[0] in x;
      var j :| 0 <= j < |y| && y[j] == x[0];
      var k :| 0 <= k < |x| && x[k] == y[0];
      assert x[0] == y[0];
      forall e ensures e in x[1..] <==> e in y[1..] {
        if e in x[1..] {
          var i :| 1 <= i < |x| && x[i] == e;
          assert Above(x[0], e);
          assert e in y;
        }
        if e in y[1..] {
          var i :| 1 <= i < |y| && y[i] == e;
          assert Above(y[0], e);
          assert e in x;
        }
      }
      OrderedUnique(x[1..], y[1..]);
      assert x == [x[0]] + x[1..] && y == [y[0]] + y[1..];
    } else if x != [] {
      HeadIsMember(x);
      assert false;
    } else if y != [] {
      HeadIsMember(y);
      assert false;
    }
  }

  /** The summary of given counts is determined: any two summaries agree. */
  lemma SummaryUnique(r1: seq<StatusCount>, r2: seq<StatusCount>, tally: Status -> nat)
    requires IsSummary(r1, tally) && IsSummary(r2, tally)
    ensures r1 == r2
  {
    forall e ensures e in r1 <==> e in r2 {
      if e in r1 {
        var i :| 0 <= i < |r1| && r1[i] == e;
        assert StatusCount(e.status, tally(e.status)) in r2;
      }
      if e in r2 {
        var i :| 0 <= i < |r2| && r2[i] == e;
        assert StatusCount(e.status, tally(e.status)) in r1;
      }
    }
    OrderedUnique(r1, r2);
  }

  /** Per-status counts with three READY, five DONE and two ERROR orders. */
  function ExampleTally(s: Status): nat
  {
    match s
    case READY => 3
    case DONE => 5
    case ERROR => 2
    case RUNNING => 0
  }

  /** Those counts summarise as DONE 5, READY 3, ERROR 2. */
  lemma SummaryExample()
    ensures SummaryOf(ExampleTally) == [StatusCount(DONE, 5), StatusCount(READY, 3), StatusCount(ERROR, 2)]
  {
    var tally := ExampleTally;
    var expected := [StatusCount(DONE, 5), StatusCount(READY, 3), StatusCount(ERROR, 2)];
    assert IsSummary(expected, tally);
    SummaryUnique(SummaryOf(tally), expected, tally);
  }

  /** Ties in count are broken by status label descending, compared as text. */
  lemma TiesByLabel(r: seq<StatusCount>, tally: Status -> nat, i: nat, j: nat)
    requires IsSummary(r, tally)
    requires i < j < |r| && r[i].count == r[j].count
    ensures LexLess(Label(r[j].status), Label(r[i].status))
  {
  }
}
