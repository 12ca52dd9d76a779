/** What a store must answer when asked for due flows. */
module DueFlows {
  import opened Rules
  import opened FlowModel
  import opened Ordering

  type Flows = map<FlowKey, Flow>

  /** The open flows whose deadline has passed. */
  function DueSet(flows: Flows, before: Time): set<FlowKey>
  {
    set key | key in flows && flows[key].expiresAt <= before
  }

  function Limited<T>(all: seq<T>, limit: int): seq<T>
  {
    if limit > 0 && |all| > limit then all[..limit] else all
  }

  predicate ByDeadline(flows: Flows, keys: seq<FlowKey>)
  {
    && (forall i :: 0 <= i < |keys| ==> keys[i] in flows)
    && (forall i, j :: 0 <= i < j < |keys| ==> flows[keys[i]].expiresAt <= flows[keys[j]].expiresAt)
  }

  /** Every due flow once, earliest deadline first; ties in any order. */
  predicate ListsDue(flows: Flows, before: Time, all: seq<FlowKey>)
  {
    multiset(all) == multiset(DueSet(flows, before)) && ByDeadline(flows, all)
  }

  /** An answer to DueFlows: the first `limit` of some listing of the due flows. */
  ghost predicate Answers(flows: Flows, before: Time, limit: int, due: seq<FlowKey>)
  {
    exists all :: ListsDue(flows, before, all) && due == Limited(all, limit)
  }

  function Deadlines(flows: Flows, keys: seq<FlowKey>): seq<Time>
    requires forall i :: 0 <= i < |keys| ==> keys[i] in flows
  {
    seq(|keys|, i requires 0 <= i < |keys| => flows[keys[i]].expiresAt)
  }

  predicate Earlier(a: Time, b: Time)
  {
    a < b
  }

  lemma DeadlinesWithoutOne(flows: Flows, y: seq<FlowKey>, k: nat)
    requires forall i :: 0 <= i < |y| ==> y[i] in flows
    requires k < |y|
    ensures multiset(Deadlines(flows, y)) ==
            multiset(Deadlines(flows, y[..k] + y[k + 1..])) + multiset{flows[y[k]].expiresAt}
  {
    var d := Deadlines(flows, y);
    WithoutOne(d, k);
    assert Deadlines(flows, y[..k] + y[k + 1..]) == d[..k] + d[k + 1..];
  }

  lemma {:induction false} DeadlinesFollow(flows: Flows, x: seq<FlowKey>, y: seq<FlowKey>)
    requires forall i :: 0 <= i < |x| ==> x[i] in flows
    requires forall i :: 0 <= i < |y| ==> y[i] in flows
    requires multiset(x) == multiset(y)
    ensures multiset(Deadlines(flows, x)) == multiset(Deadlines(flows, y))
    decreases |x|
  {
    hide Deadlines;
    assert |multiset(x)| == |multiset(y)|;
    if x == [] {
      assert x == y;
    } else {
      var k := TakeSame(x, y);
      assert x[..0] + x[1..] == x[1..];
      DeadlinesWithoutOne(flows, x, 0);
      DeadlinesWithoutOne(flows, y, k);
      DeadlinesFollow(flows, x[1..], y[..k] + y[k + 1..]);
    }
  }

  lemma ListingsAgree(flows: Flows, before: Time, x: seq<FlowKey>, y: seq<FlowKey>)
    requires ListsDue(flows, before, x) && ListsDue(flows, before, y)
    ensures |x| == |y| == |DueSet(flows, before)|
    ensures Deadlines(flows, x) == Deadlines(flows, y)
  {
    hide DueSet;
    assert |multiset(x)| == |multiset(y)| == |multiset(DueSet(flows, before))|;
    DeadlinesFollow(flows, x, y);
    OrderedUnique(Earlier, Deadlines(flows, x), Deadlines(flows, y));
  }

  /** Two stores holding the same flows answer alike: same length, same deadline at every position,
      and with room for all due flows the same flows. */
  lemma AnswersAgree(flows: Flows, before: Time, limit: int, a: seq<FlowKey>, b: seq<FlowKey>)
    requires Answers(flows, before, limit, a) && Answers(flows, before, limit, b)
    ensures ByDeadline(flows, a) && ByDeadline(flows, b)
    ensures Deadlines(flows, a) == Deadlines(flows, b)
    ensures limit <= 0 || |DueSet(flows, before)| <= limit ==>
            multiset(a) == multiset(b) == multiset(DueSet(flows, before))
    ensures |a| == if 0 < limit < |DueSet(flows, before)| then limit else |DueSet(flows, before)|
  {
    hide DueSet;
    var x :| ListsDue(flows, before, x) && a == Limited(x, limit);
    var y :| ListsDue(flows, before, y) && b == Limited(y, limit);
    ListingsAgree(flows, before, x, y);
    assert Deadlines(flows, a) == Limited(Deadlines(flows, x), limit);
    assert Deadlines(flows, b) == Limited(Deadlines(flows, y), limit);
  }

  /** A cut-off answer holds the earliest deadlines: no due flow left out is due before one that is named, and
      every named flow is past its deadline. */
  lemma AnswersAreEarliest(flows: Flows, before: Time, limit: int, due: seq<FlowKey>, i: nat, other: FlowKey)
    requires Answers(flows, before, limit, due) && i < |due|
    requires other in flows && flows[other].expiresAt <= before && other !in due
    ensures due[i] in flows && flows[due[i]].expiresAt <= before && flows[due[i]].expiresAt <= flows[other].expiresAt
  {
    var all :| ListsDue(flows, before, all) && due == Limited(all, limit);
    assert other in multiset(DueSet(flows, before)) && other in multiset(all);
    var j :| 0 <= j < |all| && all[j] == other;
    assert all[i] in multiset(all) && all[i] in multiset(DueSet(flows, before));
    assert i < j;
  }

  // ---------- answering from a list of candidates ----------

  /** A candidate of a scan. */
  datatype Due = Due(deadline: Time, key: FlowKey)

  function KeyOf(d: Due): FlowKey
  {
    d.key
  }

  /** The scan found every due flow once, each with its deadline. */
  predicate Found(flows: Flows, before: Time, found: seq<Due>)
  {
    && multiset(MapSeq(KeyOf, found)) == multiset(DueSet(flows, before))
    && forall i :: 0 <= i < |found| ==> found[i].key in flows && found[i].deadline == flows[found[i].key].expiresAt
  }

  /** The candidates are the flows of `seen`, each once and with its deadline. */
  predicate FoundAmong(flows: Flows, seen: set<FlowKey>, found: seq<Due>)
  {
    && multiset(MapSeq(KeyOf, found)) == multiset(seen)
    && forall i :: 0 <= i < |found| ==> found[i].key in flows && found[i].deadline == flows[found[i].key].expiresAt
  }

  lemma FoundNothing(flows: Flows)
    ensures FoundAmong(flows, {}, [])
  {
    assert MapSeq(KeyOf, []) == [];
  }

  lemma FoundOneMore(flows: Flows, found: seq<Due>, key: FlowKey, seen: set<FlowKey>)
    requires FoundAmong(flows, seen, found) && key in flows && key !in seen
    ensures FoundAmong(flows, seen + {key}, found + [Due(flows[key].expiresAt, key)])
  {
    var d := Due(flows[key].expiresAt, key);
    assert MapSeq(KeyOf, found + [d]) == MapSeq(KeyOf, found) + [key];
    assert multiset(seen + {key}) == multiset(seen) + multiset{key};
  }

  lemma FoundAll(flows: Flows, before: Time, found: seq<Due>)
    requires FoundAmong(flows, DueSet(flows, before), found)
    ensures Found(flows, before, found)
  {
    hide DueSet;
  }

  /** Any sort that respects deadlines turns the candidates into an answer. */
  lemma SortedCandidatesAnswer(flows: Flows, before: Time, limit: int, found: seq<Due>, less: (Due, Due) -> bool)
    requires Found(flows, before, found) && Sortable(less)
    requires forall a: Due, b: Due :: a.deadline < b.deadline ==> less(a, b)
    ensures Answers(flows, before, limit, MapSeq(KeyOf, Limited(Sort(less, found), limit)))
  {
    hide DueSet, Sort;
    var sorted := Sort(less, found);
    SortPermutes(less, found);
    SortOrders(less, found);
    MapPermutes(KeyOf, sorted, found);
    var all := MapSeq(KeyOf, sorted);
    forall i | 0 <= i < |sorted| ensures sorted[i].key in flows && sorted[i].deadline ==
            flows[sorted[i].key].expiresAt {
      assert sorted[i] in multiset(found);
    }
    assert ListsDue(flows, before, all);
    assert MapSeq(KeyOf, Limited(sorted, limit)) == Limited(all, limit);
  }
}
