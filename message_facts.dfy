/** What a message count promises, stated about every walk `IsRun` admits
    (and hence about every result of `Gotify.GetMessages`). */
module MessageFacts {
  import opened Upstream
  import opened Gotify

  /** The first request asks for a full page from cursor 0. */
  lemma FirstRequest(s: Server, n: nat, trace: seq<MessageQuery>, o: Outcome)
    requires IsRun(s, n, trace, o) && n > 0
    ensures trace != [] && trace[0] == MessageQuery(PageLimit, 0)
  {
  }

  /** A page that points further never stops the walk, whatever its size
      (an empty page included): unless the request bound is reached, the
      next request asks for a full page from the cursor that page returned. */
  lemma ContinuingPageAdvancesCursor(s: Server, n: nat, trace: seq<MessageQuery>, o: Outcome, i: nat)
    requires IsRun(s, n, trace, o)
    requires i < |trace| && i + 1 < n
    requires PageAt(s, trace[i]).Ok? && PageAt(s, trace[i]).value.since != 0
    ensures i + 1 < |trace|
    ensures trace[i + 1] == MessageQuery(PageLimit, PageAt(s, trace[i]).value.since)
  {
  }

  /** An error on any page aborts the walk at once: no further request is
      made and the outcome is that error, with no total. */
  lemma ErrorAborts(s: Server, n: nat, trace: seq<MessageQuery>, o: Outcome, i: nat)
    requires IsRun(s, n, trace, o)
    requires i < |trace| && PageAt(s, trace[i]).Err?
    ensures i == |trace| - 1
    ensures o == Failed(PageAt(s, trace[i]).error)
  {
  }

  /** The walk stops at the first page whose cursor is 0. */
  lemma SentinelEnds(s: Server, n: nat, trace: seq<MessageQuery>, o: Outcome, i: nat)
    requires IsRun(s, n, trace, o)
    requires i < |trace| && PageAt(s, trace[i]).Ok? && PageAt(s, trace[i]).value.since == 0
    ensures i == |trace| - 1
    ensures o.Counted? || o.Panicked?
    ensures o.Counted? ==> o.total == SizeSum(s, trace)
    ensures AllPages(s, trace) && o == if SizeSum(s, trace) < 0 then Panicked else Counted(SizeSum(s, trace))
  {
  }

  /** If the very first page is the last, exactly one request is made and the
      total is that page's size. */
  lemma SinglePage(s: Server, n: nat, trace: seq<MessageQuery>, o: Outcome, size: int)
    requires IsRun(s, n, trace, o) && n > 0
    requires PageAt(s, MessageQuery(PageLimit, 0)) == Ok(Paging(size, 0))
    ensures trace == [MessageQuery(PageLimit, 0)]
    ensures o == if size < 0 then Panicked else Counted(size)
  {
    FirstRequest(s, n, trace, o);
    SentinelEnds(s, n, trace, o, 0);
    assert trace == [trace[0]];
    assert trace[1..] == [];
    assert SizeSum(s, trace) == size;
  }

  /** An empty first page with cursor 17, then a last page of 5 messages: two
      requests, from cursors 0 and 17, and a total of 5. */
  lemma EmptyPageThenLastPage(s: Server, n: nat, trace: seq<MessageQuery>, o: Outcome)
    requires IsRun(s, n, trace, o) && n >= 2
    requires PageAt(s, MessageQuery(PageLimit, 0)) == Ok(Paging(0, 17))
    requires PageAt(s, MessageQuery(PageLimit, 17)) == Ok(Paging(5, 0))
    ensures trace == [MessageQuery(PageLimit, 0), MessageQuery(PageLimit, 17)]
    ensures o == Counted(5)
  {
    FirstRequest(s, n, trace, o);
    ContinuingPageAdvancesCursor(s, n, trace, o, 0);
    SentinelEnds(s, n, trace, o, 1);
    assert trace == [trace[0], trace[1]];
    assert trace[1..] == [trace[1]] && trace[1..][1..] == [];
    assert SizeSum(s, trace[1..]) == 5;
    assert SizeSum(s, trace) == 5;
  }

  /** Two walks against the same server agree on the first `k` requests. */
  lemma {:induction false} PrefixesAgree(s: Server, n: nat, t1: seq<MessageQuery>, o1: Outcome,
                                         t2: seq<MessageQuery>, o2: Outcome, k: nat)
    requires IsRun(s, n, t1, o1) && IsRun(s, n, t2, o2)
    requires k <= |t1| && k <= |t2|
    ensures t1[..k] == t2[..k]
  {
    if k > 0 {
      PrefixesAgree(s, n, t1, o1, t2, o2, k - 1);
      if k > 1 {
        assert t1[k - 2] == t1[..k - 1][k - 2] == t2[..k - 1][k - 2] == t2[k - 2];
      }
      assert t1[..k] == t1[..k - 1] + [t1[k - 1]];
      assert t2[..k] == t2[..k - 1] + [t2[k - 1]];
    }
  }

  /** A walk cannot stop while another walk against the same server goes on. */
  lemma NotShorter(s: Server, n: nat, t1: seq<MessageQuery>, o1: Outcome, t2: seq<MessageQuery>, o2: Outcome)
    requires IsRun(s, n, t1, o1) && IsRun(s, n, t2, o2)
    ensures |t2| <= |t1|
  {
    var m := if |t1| < |t2| then |t1| else |t2|;
    PrefixesAgree(s, n, t1, o1, t2, o2, m);
    if t1 != [] && m == |t1| {
      var j := |t1| - 1;
      assert t1[j] == t1[..m][j] == t2[..m][j] == t2[j];
      assert t1[j] == Last(t1);
    }
  }

  /** Counting twice against an unchanged server issues the same requests
      and gives the same outcome. */
  lemma RunIsUnique(s: Server, n: nat, t1: seq<MessageQuery>, o1: Outcome, t2: seq<MessageQuery>, o2: Outcome)
    requires IsRun(s, n, t1, o1) && IsRun(s, n, t2, o2)
    ensures t1 == t2 && o1 == o2
  {
    NotShorter(s, n, t1, o1, t2, o2);
    NotShorter(s, n, t2, o2, t1, o1);
    PrefixesAgree(s, n, t1, o1, t2, o2, |t1|);
    assert t1 == t1[..|t1|] && t2 == t2[..|t2|];
    RunMatchesReference(s, n, t1, o1);
    RunMatchesReference(s, n, t2, o2);
  }

  /** Once the last page has been seen within `budget` requests, allowing
      more requests changes nothing. */
  lemma {:induction false} MoreBudgetSameTally(s: Server, cursor: int, budget: nat, more: nat)
    requires Remaining(s, cursor, budget) != Endless
    requires budget <= more
    ensures Remaining(s, cursor, more) == Remaining(s, cursor, budget)
    decreases budget
  {
    match PageAt(s, MessageQuery(PageLimit, cursor))
    case Err(e) =>
    case Ok(p) =>
      if p.since != 0 {
        MoreBudgetSameTally(s, p.since, budget - 1, more - 1);
      }
  }

  /** The request bound only decides anything for a server that never sends
      the last page within it. */
  lemma BoundIrrelevantOnceEnded(s: Server, n: nat, m: nat)
    requires CountMessages(s, n) != NoSentinel
    requires n <= m
    ensures CountMessages(s, m) == CountMessages(s, n)
  {
    MoreBudgetSameTally(s, 0, n, m);
  }
}
