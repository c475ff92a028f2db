/** The counting client for a Gotify notification server: the number of
    applications, the number of clients, and the number of messages, the
    last one obtained by walking the server's paginated message listing.

    The server is given as a value (`Server`): what each endpoint answers.
    Because the message endpoint is a function of the query, calling the
    client twice against the same `Server` value is calling it twice against
    an unchanged upstream. */
module Gotify {
  import opened Upstream

  /** One decoded JSON object of the application or client listing. Its
      contents are not modelled: the client only ever uses how many there are. */
  datatype Record = Record

  /** The `paging` part of a message listing reply: how many messages the
      page holds and the cursor to continue from (0 when there is no more). */
  datatype Paging = Paging(size: int, since: int)

  /** The query of one message listing request: `limit` and `since`. */
  datatype MessageQuery = MessageQuery(limit: int, since: int)

  /** The largest page the server hands out; every message request asks for it. */
  const PageLimit: int := 200

  /** What the upstream answers on each endpoint. */
  datatype Server = Server(
    applications: Exchange<seq<Record>>,
    clients: Exchange<seq<Record>>,
    messages: MessageQuery -> Exchange<Paging>)

  // ---------------------------------------------------------------------
  // Application and client counts: one request, then the length of the list.

  function CountOf(r: Result<seq<Record>>): Result<nat> {
    match r
    case Ok(records) => Ok(|records|)
    case Err(e) => Err(e)
  }

  /** The number of applications: fails exactly when the request fails, the
      status is not 200 or the body does not decode, and otherwise is the
      number of decoded application records. */
  function GetApplications(s: Server): (r: Result<nat>)
    ensures r.Ok? <==> s.applications.Reply? && s.applications.status == StatusOK && s.applications.body.Decoded?
    ensures r.Ok? ==> r.value == |s.applications.body.value|
    ensures s.applications.Reply? && s.applications.status != StatusOK ==> r == Err(StatusError(s.applications.status))
    ensures s.applications.Reply? && s.applications.status == StatusOK && s.applications.body.Malformed? ==> r == Err(DecodeError)
    ensures s.applications.NotSent? ==> r == Err(RequestError)
    ensures s.applications.NoReply? ==> r == Err(TransportError)
  {
    CountOf(Receive(s.applications))
  }

  /** The number of clients, under the same policy as `GetApplications`. */
  function GetClients(s: Server): (r: Result<nat>)
    ensures r.Ok? <==> s.clients.Reply? && s.clients.status == StatusOK && s.clients.body.Decoded?
    ensures r.Ok? ==> r.value == |s.clients.body.value|
    ensures s.clients.Reply? && s.clients.status != StatusOK ==> r == Err(StatusError(s.clients.status))
    ensures s.clients.Reply? && s.clients.status == StatusOK && s.clients.body.Malformed? ==> r == Err(DecodeError)
    ensures s.clients.NotSent? ==> r == Err(RequestError)
    ensures s.clients.NoReply? ==> r == Err(TransportError)
  {
    CountOf(Receive(s.clients))
  }

  // ---------------------------------------------------------------------
  // Message count: the paginated walk.

  /** How the message count ends. `Panicked` is the runtime failure of
      allocating a listing of negative length when the pages' sizes sum to
      less than zero. `NoSentinel` is the model's stand-in for a walk that
      has not seen `since == 0` after the request bound it was given. */
  datatype Outcome = Counted(total: nat) | Panicked | Failed(error: Error) | NoSentinel

  /** The decoded reply to one message query. */
  function PageAt(s: Server, q: MessageQuery): Result<Paging> {
    Receive(s.messages(q))
  }

  /** The reply to `q` is a page that points to a further page. */
  predicate Continues(s: Server, q: MessageQuery) {
    PageAt(s, q).Ok? && PageAt(s, q).value.since != 0
  }

  /** The reply to `q` is the last page. */
  predicate Ends(s: Server, q: MessageQuery) {
    PageAt(s, q).Ok? && PageAt(s, q).value.since == 0
  }

  predicate AllPages(s: Server, trace: seq<MessageQuery>) {
    forall i | 0 <= i < |trace| :: PageAt(s, trace[i]).Ok?
  }

  /** The sum of the page sizes returned for the queries of `trace`. */
  function SizeSum(s: Server, trace: seq<MessageQuery>): int
    requires AllPages(s, trace)
  {
    if trace == [] then 0 else PageAt(s, trace[0]).value.size + SizeSum(s, trace[1..])
  }

  function Last(trace: seq<MessageQuery>): MessageQuery
    requires trace != []
  {
    trace[|trace| - 1]
  }

  /** The requests of a walk: every one asks for `PageLimit` messages, the
      first one from cursor 0, and every later one from the `since` of the
      page just before it, which was a page that pointed further. */
  predicate Threaded(s: Server, trace: seq<MessageQuery>) {
    && (forall i | 0 <= i < |trace| :: trace[i].limit == PageLimit)
    && (trace != [] ==> trace[0].since == 0)
    && (forall i | 0 <= i < |trace| - 1 ::
          Continues(s, trace[i]) && trace[i + 1].since == PageAt(s, trace[i]).value.since)
  }

  /** How the reply to the last request decides the outcome: an error aborts
      with that error and no total; the last page ends the walk with the sum
      of every page's size, that page's included; a walk that used up its
      request bound without either is `NoSentinel`. */
  predicate Stopped(s: Server, maxRequests: nat, trace: seq<MessageQuery>, o: Outcome) {
    match o
    case Failed(e) => trace != [] && PageAt(s, Last(trace)) == Err(e)
    case Counted(t) => trace != [] && Ends(s, Last(trace)) && AllPages(s, trace) && SizeSum(s, trace) == t
    case Panicked => trace != [] && Ends(s, Last(trace)) && AllPages(s, trace) && SizeSum(s, trace) < 0
    case NoSentinel => |trace| == maxRequests && (trace != [] ==> Continues(s, Last(trace)))
  }

  /** `trace` and `o` are the requests and the outcome of a message count
      against `s` that may issue at most `maxRequests` requests. */
  predicate IsRun(s: Server, maxRequests: nat, trace: seq<MessageQuery>, o: Outcome) {
    Threaded(s, trace) && |trace| <= maxRequests && Stopped(s, maxRequests, trace, o)
  }

  /** The message count, done step by step as the service does it: one
      request per page, the total accumulated as the pages arrive. The
      request bound `maxRequests` is the model's; the service has none. */
  method GetMessages(s: Server, maxRequests: nat) returns (outcome: Outcome, trace: seq<MessageQuery>)
    ensures Threaded(s, trace) && |trace| <= maxRequests
    ensures Stopped(s, maxRequests, trace, outcome)
    ensures outcome == CountMessages(s, maxRequests)
  {
    var totalMessages: int := 0;
    var offset: int := 0;
    trace := [];
    while |trace| < maxRequests
      invariant Threaded(s, trace) && |trace| <= maxRequests
      invariant forall i | 0 <= i < |trace| :: Continues(s, trace[i])
      invariant offset == if trace == [] then 0 else PageAt(s, Last(trace)).value.since
      invariant totalMessages == SizeSum(s, trace)
      decreases maxRequests - |trace|
    {
      var query := MessageQuery(PageLimit, offset);
      var page := Receive(s.messages(query));
      SizeSumAppend(s, trace, query);
      trace := trace + [query];
      match page
      case Err(e) =>
        outcome := Failed(e);
        RunMatchesReference(s, maxRequests, trace, outcome);
        return;
      case Ok(p) =>
        totalMessages := totalMessages + p.size;
        if p.since == 0 {
          outcome := if totalMessages < 0 then Panicked else Counted(totalMessages);
          RunMatchesReference(s, maxRequests, trace, outcome);
          return;
        }
        offset := p.since;
    }
    outcome := NoSentinel;
    RunMatchesReference(s, maxRequests, trace, outcome);
  }

  lemma {:induction false} SizeSumAppend(s: Server, trace: seq<MessageQuery>, q: MessageQuery)
    requires AllPages(s, trace)
    ensures PageAt(s, q).Ok? ==> AllPages(s, trace + [q])
    ensures PageAt(s, q).Ok? ==> SizeSum(s, trace + [q]) == SizeSum(s, trace) + PageAt(s, q).value.size
  {
    if PageAt(s, q).Ok? && trace != [] {
      assert (trace + [q])[1..] == trace[1..] + [q];
      SizeSumAppend(s, trace[1..], q);
    }
  }

  // ---------------------------------------------------------------------
  // A reference definition of the message count, read from the back: the
  // count from a cursor is the first page's size plus the count from the
  // cursor that page returns.

  datatype Tally = Sum(total: int) | Stop(error: Error) | Endless

  function Plus(size: int, rest: Tally): Tally {
    if rest.Sum? then Sum(size + rest.total) else rest
  }

  /** The count of the pages from `cursor` on, with at most `budget` requests. */
  function Remaining(s: Server, cursor: int, budget: nat): Tally
    decreases budget
  {
    if budget == 0 then Endless
    else match PageAt(s, MessageQuery(PageLimit, cursor))
      case Err(e) => Stop(e)
      case Ok(p) => if p.since == 0 then Sum(p.size) else Plus(p.size, Remaining(s, p.since, budget - 1))
  }

  function CountMessages(s: Server, maxRequests: nat): Outcome {
    match Remaining(s, 0, maxRequests)
    case Sum(t) => if t < 0 then Panicked else Counted(t)
    case Stop(e) => Failed(e)
    case Endless => NoSentinel
  }

  /** The suffix of a walk from its `k`-th request agrees with the reference
      count from that request's cursor. */
  lemma {:induction false} SuffixMatchesReference(s: Server, n: nat, trace: seq<MessageQuery>, o: Outcome, k: nat)
    requires IsRun(s, n, trace, o)
    requires k < |trace|
    ensures o.Failed? ==> Remaining(s, trace[k].since, n - k) == Stop(o.error)
    ensures o.NoSentinel? ==> Remaining(s, trace[k].since, n - k) == Endless
    ensures (o.Counted? || o.Panicked?) ==>
              AllPages(s, trace[k..]) && Remaining(s, trace[k].since, n - k) == Sum(SizeSum(s, trace[k..]))
    decreases |trace| - k
  {
    var q := trace[k];
    assert q == MessageQuery(PageLimit, q.since);
    if k == |trace| - 1 {
      assert q == Last(trace);
      assert trace[k..] == [q];
    } else {
      SuffixMatchesReference(s, n, trace, o, k + 1);
      assert Continues(s, q);
      assert trace[k + 1].since == PageAt(s, q).value.since;
      assert trace[k..][1..] == trace[k + 1..];
    }
  }

  /** Any walk ends in the reference count: the outcome depends only on
      what the server answers, not on how the walk is carried out. */
  lemma RunMatchesReference(s: Server, n: nat, trace: seq<MessageQuery>, o: Outcome)
    requires IsRun(s, n, trace, o)
    ensures o == CountMessages(s, n)
  {
    if trace != [] {
      SuffixMatchesReference(s, n, trace, o, 0);
      assert trace[0..] == trace;
    }
  }
}
