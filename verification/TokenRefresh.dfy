/** The silent token refresh of the browser client (frontend apiClient): requests, 401 replies and
    the reply to the one refresh call interleave freely; handlers run to completion. */
module TokenRefresh {
  import opened Prelude

  type Token = string

  datatype Phase = Unsent | InFlight | Queued | Leading | Resolved | Rejected

  /** A request configuration and the promise its caller waits on. settled counts how often that
      promise was resolved or rejected; header is the token the latest transmission carried. */
  datatype Request = Request(url: Option<string>, retry: bool, phase: Phase, header: Option<Token>, settled: nat)

  /** defaultHeader is the Authorization header new requests start from; refreshes counts the calls of
      /auth/refresh made so far. */
  datatype Client = Client(accessToken: Option<Token>, defaultHeader: Option<Token>, isRefreshing: bool,
                           failedQueue: seq<nat>, requests: seq<Request>, refreshes: nat)

  const AUTH_ENDPOINTS := ["/auth/login", "/auth/register", "/auth/refresh", "/auth/logout"]
  const REFRESH_URL := "/auth/refresh"

  predicate OccursAt(s: string, part: string, i: nat) {
    i + |part| <= |s| && s[i..i + |part|] == part
  }

  /** String.prototype.includes. */
  predicate Includes(s: string, part: string) {
    exists i: nat | i <= |s| :: OccursAt(s, part, i)
  }

  predicate IsAuthEndpoint(url: Option<string>) {
    url.Some? && exists e: nat | e < |AUTH_ENDPOINTS| :: Includes(url.value, AUTH_ENDPOINTS[e])
  }

  // ─── The interceptor ────────────────────────────────────────────────────────

  datatype Reaction = PassOn | Enqueue | Lead

  /** What the response interceptor does with a failed reply; no status means no response at all. */
  function React(url: Option<string>, retry: bool, status: Option<nat>, isRefreshing: bool): Reaction {
    if status == Some(401) && !retry && !IsAuthEndpoint(url) then
      if isRefreshing then Enqueue else Lead
    else PassOn
  }

  function Settle(r: Request, phase: Phase): Request { r.(phase := phase, settled := r.settled + 1) }

  /** Sending attaches the token in memory, if there is one, over whatever header was there, and a request
      without a header gets the default one. */
  function Transmit(r: Request, accessToken: Option<Token>, defaultHeader: Option<Token>): Request {
    r.(phase := InFlight,
       header := if accessToken.Some? then accessToken else if r.header.Some? then r.header else defaultHeader)
  }

  /** SetToken stands for the login, the logout and the refresh at the start of the application, which
      store or clear the token in memory. */
  datatype Event =
    | SetToken(token': Option<Token>)
    | Send(i: nat)
    | Success(i: nat)
    | Failure(i: nat, status: Option<nat>)
    | Refreshed(token: Token)
    | RefreshFailed

  predicate Enabled(c: Client, e: Event) {
    match e
    case SetToken(_) => true
    case Send(i) => i < |c.requests| && c.requests[i].phase.Unsent?
    case Success(i) => i < |c.requests| && c.requests[i].phase.InFlight?
    case Failure(i, _) => i < |c.requests| && c.requests[i].phase.InFlight?
    case Refreshed(_) => c.isRefreshing
    case RefreshFailed => c.isRefreshing
  }

  /** Request i waits for the refresh in flight. */
  predicate Waits(c: Client, i: nat)
    requires i < |c.requests|
  {
    i in c.failedQueue || c.requests[i].phase.Leading?
  }

  function Released(c: Client, token: Token): (r: seq<Request>)
    ensures |r| == |c.requests|
  {
    seq(|c.requests|, (i: nat) requires i < |c.requests| =>
      if Waits(c, i) then Transmit(c.requests[i], Some(token), Some(token)) else c.requests[i])
  }

  function Dropped(c: Client): (r: seq<Request>)
    ensures |r| == |c.requests|
  {
    seq(|c.requests|, (i: nat) requires i < |c.requests| =>
      if Waits(c, i) then Settle(c.requests[i], Rejected) else c.requests[i])
  }

  function Next(c: Client, e: Event): Client
    requires Enabled(c, e)
  {
    match e
    case SetToken(token) => c.(accessToken := token)
    case Send(i) => c.(requests := c.requests[i := Transmit(c.requests[i], c.accessToken, c.defaultHeader)])
    case Success(i) => c.(requests := c.requests[i := Settle(c.requests[i], Resolved)])
    case Failure(i, status) =>
      var r := c.requests[i];
      (match React(r.url, r.retry, status, c.isRefreshing)
       case PassOn => c.(requests := c.requests[i := Settle(r, Rejected)])
       case Enqueue => c.(requests := c.requests[i := r.(phase := Queued)], failedQueue := c.failedQueue + [i])
       case Lead => c.(requests := c.requests[i := r.(phase := Leading, retry := true)],
                       isRefreshing := true, refreshes := c.refreshes + 1))
    case Refreshed(token) =>
      c.(accessToken := Some(token), defaultHeader := Some(token), requests := Released(c, token), failedQueue := [],
          isRefreshing := false)
    case RefreshFailed =>
      c.(accessToken := None, requests := Dropped(c), failedQueue := [], isRefreshing := false)
  }

  // ─── The invariant ──────────────────────────────────────────────────────────

  predicate IsDone(p: Phase) { p.Resolved? || p.Rejected? }

  function Retried(c: Client): nat -> int {
    (i: nat) => if i < |c.requests| && c.requests[i].retry then 1 else 0
  }

  ghost predicate Inv(c: Client) {
    // the queue holds exactly the queued requests, each once
    && (forall i: nat | i in c.failedQueue :: i < |c.requests| && c.requests[i].phase.Queued?)
    && (forall i: nat | i < |c.requests| && c.requests[i].phase.Queued? :: i in c.failedQueue)
    && (forall x: nat, y: nat | x < y < |c.failedQueue| :: c.failedQueue[x] != c.failedQueue[y])
    // somebody waits only while a refresh is in flight, and one request leads it
    && (!c.isRefreshing ==> c.failedQueue == [])
    && (c.isRefreshing <==> exists i: nat :: i < |c.requests| && c.requests[i].phase.Leading?)
    && (forall i: nat, j: nat | i < |c.requests| && j < |c.requests| ::
       c.requests[i].phase.Leading? && c.requests[j].phase.Leading? ==> i == j)
    && (forall i: nat | i < |c.requests| && c.requests[i].phase.Leading? :: c.requests[i].retry)
    // every promise is settled once, at the end
    && (forall i: nat | i < |c.requests| :: c.requests[i].settled == if IsDone(c.requests[i].phase) then 1 else 0)
    // authentication calls take no part in it
    && (forall i: nat | i < |c.requests| && IsAuthEndpoint(c.requests[i].url) ::
          !c.requests[i].retry && !c.requests[i].phase.Queued? && !c.requests[i].phase.Leading?)
    // one refresh per request that ever led
    && c.refreshes == SumTo(|c.requests|, Retried(c))
  }

  /** n requests about to be sent. */
  predicate IsFresh(c: Client) {
    && !c.isRefreshing && c.failedQueue == [] && c.refreshes == 0 && c.defaultHeader.None?
    && forall i: nat | i < |c.requests| ::
         c.requests[i].phase.Unsent? && !c.requests[i].retry && c.requests[i].header.None? && c.requests[i].settled == 0
  }

  lemma FreshIsSound(c: Client)
    requires IsFresh(c)
    ensures Inv(c)
  {
    SumConstant(|c.requests|, Retried(c), 0);
  }

  /** Replacing one request by one that did not lead and does not wait. */
  lemma UpdateKeeps(c: Client, i: nat, r: Request)
    requires Inv(c) && i < |c.requests| && r.url == c.requests[i].url && r.retry == c.requests[i].retry
    requires !c.requests[i].phase.Queued? && !c.requests[i].phase.Leading? && !r.phase.Queued? && !r.phase.Leading?
    requires r.settled == if IsDone(r.phase) then 1 else 0
    ensures Inv(c.(requests := c.requests[i := r]))
  {
    var c' := c.(requests := c.requests[i := r]);
    SumSame(|c.requests|, Retried(c), Retried(c'));
    if c.isRefreshing {
      var l: nat :| l < |c.requests| && c.requests[l].phase.Leading?;
      assert c'.requests[l].phase.Leading?;
    }
  }

  lemma EnqueueKeeps(c: Client, i: nat)
    requires Inv(c) && i < |c.requests| && c.requests[i].phase.InFlight? && c.isRefreshing
             && !IsAuthEndpoint(c.requests[i].url)
    ensures Inv(c.(requests := c.requests[i := c.requests[i].(phase := Queued)], failedQueue := c.failedQueue + [i]))
  {
    var c' := c.(requests := c.requests[i := c.requests[i].(phase := Queued)], failedQueue := c.failedQueue + [i]);
    SumSame(|c.requests|, Retried(c), Retried(c'));
    var l: nat :| l < |c.requests| && c.requests[l].phase.Leading?;
    assert c'.requests[l].phase.Leading?;
    assert i in c'.failedQueue by { assert c'.failedQueue[|c.failedQueue|] == i; }
    forall k: nat | k in c.failedQueue ensures k in c'.failedQueue {
    }
  }

  lemma LeadKeeps(c: Client, i: nat)
    requires Inv(c) && i < |c.requests| && c.requests[i].phase.InFlight?
    requires !c.isRefreshing && !c.requests[i].retry && !IsAuthEndpoint(c.requests[i].url)
    ensures Inv(c.(requests := c.requests[i := c.requests[i].(phase := Leading, retry := true)], isRefreshing := true,
            refreshes := c.refreshes + 1))
  {
    var c' := c.(requests := c.requests[i := c.requests[i].(phase := Leading, retry := true)], isRefreshing := true,
        refreshes := c.refreshes + 1);
    SumChange(|c.requests|, Retried(c), Retried(c'), i);
    assert c'.requests[i].phase.Leading?;
  }

  lemma ReleaseKeeps(c: Client, e: Event)
    requires Inv(c) && Enabled(c, e) && (e.Refreshed? || e.RefreshFailed?)
    ensures Inv(Next(c, e))
  {
    SumSame(|c.requests|, Retried(c), Retried(Next(c, e)));
  }

  lemma SetTokenKeeps(c: Client, token: Option<Token>)
    requires Inv(c)
    ensures Inv(c.(accessToken := token))
  {
    SumSame(|c.requests|, Retried(c), Retried(c.(accessToken := token)));
  }

  lemma NextKeeps(c: Client, e: Event)
    requires Inv(c) && Enabled(c, e)
    ensures Inv(Next(c, e))
  {
    match e {
      case SetToken(token) => SetTokenKeeps(c, token);
      case Send(i) => UpdateKeeps(c, i, Transmit(c.requests[i], c.accessToken, c.defaultHeader));
      case Success(i) => UpdateKeeps(c, i, Settle(c.requests[i], Resolved));
      case Failure(i, status) =>
        match React(c.requests[i].url, c.requests[i].retry, status, c.isRefreshing) {
          case PassOn => UpdateKeeps(c, i, Settle(c.requests[i], Rejected));
          case Enqueue => EnqueueKeeps(c, i);
          case Lead => LeadKeeps(c, i);
        }
      case Refreshed(_) => ReleaseKeeps(c, e);
      case RefreshFailed => ReleaseKeeps(c, e);
    }
  }

  // ─── Termination ────────────────────────────────────────────────────────────

  function Weight(c: Client): nat -> int {
    (i: nat) =>
      if i >= |c.requests| then 0
      else if c.requests[i].phase.Unsent? then 2
      else if c.requests[i].phase.InFlight? then 1
      else 0
  }

  /** How many requests may still lead a refresh. */
  function Leaders(c: Client): int { |c.requests| - c.refreshes }

  function Work(c: Client): int { SumTo(|c.requests|, Weight(c)) }

  lemma WorkIsBounded(c: Client)
    ensures 0 <= Work(c) <= 2 * |c.requests|
  {
    var zero, two := (i: nat) => 0, (i: nat) => 2;
    SumConstant(|c.requests|, zero, 0);
    SumConstant(|c.requests|, two, 2);
    SumAtMost(|c.requests|, zero, Weight(c));
    SumAtMost(|c.requests|, Weight(c), two);
  }

  /** At most one refresh per request, although queued requests are not marked _retry. */
  lemma RefreshesAreBounded(c: Client)
    requires Inv(c)
    ensures 0 <= c.refreshes <= |c.requests|
  {
    var one := (i: nat) => 1;
    SumConstant(|c.requests|, one, 1);
    SumAtMost(|c.requests|, Retried(c), one);
  }

  /** The event belongs to the protocol: it is not the application setting the token. */
  predicate IsProgress(e: Event) { !e.SetToken? }

  /** Every such event makes the triple (requests that may still lead, refresh in flight, work) smaller. */
  lemma EventsDecrease(c: Client, e: Event)
    requires Inv(c) && Enabled(c, e) && IsProgress(e)
    ensures var c' := Next(c, e);
            || Leaders(c') < Leaders(c)
            || (Leaders(c') == Leaders(c) && c.isRefreshing && !c'.isRefreshing)
            || (Leaders(c') == Leaders(c) && c.isRefreshing == c'.isRefreshing && Work(c') < Work(c))
    ensures Leaders(Next(c, e)) >= Leaders(c) - 1 && |Next(c, e).requests| == |c.requests|
  {
    var c' := Next(c, e);
    match e {
      case Send(i) => SumChange(|c.requests|, Weight(c), Weight(c'), i);
      case Success(i) => SumChange(|c.requests|, Weight(c), Weight(c'), i);
      case Failure(i, status) => SumChange(|c.requests|, Weight(c), Weight(c'), i);
      case Refreshed(_) =>
      case RefreshFailed =>
    }
  }

  /** The triple as one number. */
  function Fuel(c: Client): int {
    var k := 2 * |c.requests| + 1;
    Leaders(c) * (2 * k) + (if c.isRefreshing then k else 0) + Work(c)
  }

  lemma SetTokenIsFree(c: Client, token: Option<Token>)
    ensures Fuel(Next(c, SetToken(token))) == Fuel(c)
  {
    SumSame(|c.requests|, Weight(c), Weight(Next(c, SetToken(token))));
  }

  lemma FuelDecreases(c: Client, e: Event)
    requires Inv(c) && Enabled(c, e) && IsProgress(e)
    ensures Fuel(Next(c, e)) < Fuel(c)
  {
    var c' := Next(c, e);
    EventsDecrease(c, e);
    WorkIsBounded(c);
    WorkIsBounded(c');
    var k := 2 * |c.requests| + 1;
    if Leaders(c') < Leaders(c) {
      assert Leaders(c') == Leaders(c) - 1;
      assert Leaders(c') * (2 * k) == Leaders(c) * (2 * k) - 2 * k;
    }
  }

  lemma FuelIsNotNegative(c: Client)
    requires Inv(c)
    ensures Fuel(c) >= 0
  {
    RefreshesAreBounded(c);
    WorkIsBounded(c);
    assert Leaders(c) * (2 * (2 * |c.requests| + 1)) >= 0;
  }

  // ─── Runs ───────────────────────────────────────────────────────────────────

  predicate IsRun(c: Client, events: seq<Event>)
    decreases |events|
  {
    events == [] || (Enabled(c, events[0]) && IsRun(Next(c, events[0]), events[1..]))
  }

  function After(c: Client, events: seq<Event>): Client
    requires IsRun(c, events)
    decreases |events|
  {
    if events == [] then c else After(Next(c, events[0]), events[1..])
  }

  /** The number of events of the protocol in a run. */
  function Progress(events: seq<Event>): nat {
    if events == [] then 0 else (if IsProgress(events[0]) then 1 else 0) + Progress(events[1..])
  }

  lemma {:induction false} RunKeeps(c: Client, events: seq<Event>)
    requires Inv(c) && IsRun(c, events)
    ensures Inv(After(c, events)) && |After(c, events).requests| == |c.requests|
    ensures Progress(events) <= Fuel(c) - Fuel(After(c, events))
    decreases |events|
  {
    if events != [] {
      NextKeeps(c, events[0]);
      if IsProgress(events[0]) { FuelDecreases(c, events[0]); } else { SetTokenIsFree(c, events[0].token'); }
      RunKeeps(Next(c, events[0]), events[1..]);
    }
  }

  /** n requests, any interleaving, the token set and cleared at any time: the protocol stops after at most
      4n(n + 1) events of its own, with at most n refresh calls. */
  lemma RunsTerminate(c: Client, events: seq<Event>)
    requires IsFresh(c) && IsRun(c, events)
    ensures Progress(events) <= 4 * |c.requests| * (|c.requests| + 1)
    ensures After(c, events).refreshes <= |c.requests|
  {
    FreshIsSound(c);
    RunKeeps(c, events);
    FuelIsNotNegative(After(c, events));
    RefreshesAreBounded(After(c, events));
    FreshFuel(c);
  }

  lemma FreshFuel(c: Client)
    requires IsFresh(c)
    ensures Fuel(c) == 4 * |c.requests| * (|c.requests| + 1)
  {
    var n := |c.requests|;
    SumConstant(n, Weight(c), 2);
    Expand(n);
  }

  lemma Expand(n: nat)
    ensures n * (2 * (2 * n + 1)) + n * 2 == 4 * n * (n + 1)
  {
  }

  /** No request waits for ever: as long as one is not settled, some event can happen; and when none
      can, every promise has been settled exactly once. */
  lemma NobodyIsStuck(c: Client, i: nat)
    requires Inv(c) && i < |c.requests|
    ensures c.requests[i].settled != 1 ==> exists e: Event :: Enabled(c, e) && IsProgress(e)
    ensures c.requests[i].settled <= 1
  {
    match c.requests[i].phase {
      case Unsent => assert Enabled(c, Send(i)) && IsProgress(Send(i));
      case InFlight => assert Enabled(c, Success(i)) && IsProgress(Success(i));
      case Queued => assert Enabled(c, RefreshFailed) && IsProgress(RefreshFailed);
      case Leading => assert Enabled(c, RefreshFailed) && IsProgress(RefreshFailed);
      case Resolved =>
      case Rejected =>
    }
  }

  /** A run that cannot be continued has settled every request, once. */
  lemma CompleteRunsSettleEveryRequestOnce(c: Client, events: seq<Event>, i: nat)
    requires IsFresh(c) && IsRun(c, events) && i < |c.requests|
    requires forall e: Event | Enabled(After(c, events), e) :: !IsProgress(e)
    ensures i < |After(c, events).requests| && After(c, events).requests[i].settled == 1
  {
    FreshIsSound(c);
    RunKeeps(c, events);
    NobodyIsStuck(After(c, events), i);
  }

  // ─── What a refresh does ────────────────────────────────────────────────────

  /** The refresh call passes through the same interceptor, which never queues it and never refreshes for it. */
  lemma RefreshIsNeverQueued(retry: bool, status: Option<nat>, isRefreshing: bool)
    ensures React(Some(REFRESH_URL), retry, status, isRefreshing) == PassOn
  {
    assert OccursAt(REFRESH_URL, AUTH_ENDPOINTS[2], 0);
    assert Includes(REFRESH_URL, AUTH_ENDPOINTS[2]);
  }

  /** A failed refresh rejects exactly the leader and the queued requests and forgets the token. */
  lemma FailedRefreshRejectsTheWaiting(c: Client, i: nat)
    requires Inv(c) && c.isRefreshing && i < |c.requests|
    ensures var c' := Next(c, RefreshFailed);
            && c'.accessToken.None? && !c'.isRefreshing && c'.failedQueue == []
            && (c.requests[i].phase.Queued? || c.requests[i].phase.Leading? ==>
                  c'.requests[i].phase.Rejected? && c'.requests[i].settled == 1 && c.requests[i].settled == 0)
            && (!c.requests[i].phase.Queued? && !c.requests[i].phase.Leading? ==> c'.requests[i] == c.requests[i])
  {
  }

  /** A successful one sends exactly those again, with the new token, and settles nobody. */
  lemma RefreshResendsTheWaiting(c: Client, token: Token, i: nat)
    requires Inv(c) && c.isRefreshing && i < |c.requests|
    ensures var c' := Next(c, Refreshed(token));
            && c'.accessToken == Some(token) && !c'.isRefreshing && c'.failedQueue == []
            && c'.requests[i].settled == c.requests[i].settled
            && (c.requests[i].phase.Queued? || c.requests[i].phase.Leading? ==>
                  c'.requests[i].phase.InFlight? && c'.requests[i].header == Some(token))
            && (!c.requests[i].phase.Queued? && !c.requests[i].phase.Leading? ==> c'.requests[i] == c.requests[i])
  {
  }

  /** The leader is not in the queue, and nobody else leads. */
  lemma QueueOnly(c: Client, leader: nat)
    requires Inv(c) && leader < |c.requests| && c.requests[leader].phase.Leading?
    ensures leader !in c.failedQueue
    ensures forall i: nat | i < |c.requests| :: Waits(c, i) <==> i in c.failedQueue || i == leader
  {
  }

  /** The text with part somewhere in it. */
  function Around(before: string, part: string, after: string): string { before + part + after }

  lemma IncludesMeans(s: string, part: string)
    ensures Includes(s, part) <==> exists before: string, after: string :: s == Around(before, part, after)
  {
    if Includes(s, part) {
      var i: nat :| i <= |s| && OccursAt(s, part, i);
      assert s == Around(s[..i], part, s[i + |part|..]);
    }
    if before: string, after: string :| s == Around(before, part, after) {
      assert OccursAt(s, part, |before|);
    }
  }

  /** The url contains one of the four authentication paths. */
  ghost predicate NamesAuthPath(url: string) {
    exists before: string, after: string ::
      || url == Around(before, "/auth/login", after)
      || url == Around(before, "/auth/register", after)
      || url == Around(before, "/auth/refresh", after)
      || url == Around(before, "/auth/logout", after)
  }

  lemma AuthEndpointMeans(url: string)
    ensures IsAuthEndpoint(Some(url)) <==> NamesAuthPath(url)
  {
    IncludesMeans(url, "/auth/login");
    IncludesMeans(url, "/auth/register");
    IncludesMeans(url, "/auth/refresh");
    IncludesMeans(url, "/auth/logout");
    assert AUTH_ENDPOINTS[0] == "/auth/login" && AUTH_ENDPOINTS[1] == "/auth/register";
    assert AUTH_ENDPOINTS[2] == "/auth/refresh" && AUTH_ENDPOINTS[3] == "/auth/logout";
  }

  /** Only a 401 for a request that is no retry and no authentication call starts a refresh, or joins the one in
      flight; every other failure rejects its request once and touches nothing else. */
  lemma FailureDoes(c: Client, i: nat, status: Option<nat>)
    requires Enabled(c, Failure(i, status))
    ensures var r, c' := c.requests[i], Next(c, Failure(i, status));
            var renews := status == Some(401) && !r.retry && (r.url.Some? ==> !NamesAuthPath(r.url.value));
            && (!renews ==> c' == c.(requests := c.requests[i := r.(phase := Rejected, settled := r.settled + 1)]))
            && (renews && c.isRefreshing ==>
                  c' == c.(requests := c.requests[i := r.(phase := Queued)], failedQueue := c.failedQueue + [i]))
            && (renews && !c.isRefreshing ==>
                  c' == c.(requests := c.requests[i := r.(phase := Leading, retry := true)],
                           isRefreshing := true, refreshes := c.refreshes + 1))
  {
    if c.requests[i].url.Some? { AuthEndpointMeans(c.requests[i].url.value); }
  }

  /** A reply without failure resolves its request once and touches nothing else. */
  lemma SuccessDoes(c: Client, i: nat)
    requires Enabled(c, Success(i))
    ensures var r := c.requests[i];
            Next(c, Success(i)) == c.(requests := c.requests[i := r.(phase := Resolved, settled := r.settled + 1)])
  {
  }

  /** A new request goes out once, with the token in memory if there is one. */
  lemma SendDoes(c: Client, i: nat)
    requires Enabled(c, Send(i))
    ensures var r, c' := c.requests[i], Next(c, Send(i));
            && |c'.requests| == |c.requests| && c' == c.(requests := c.requests[i := c'.requests[i]])
            && c'.requests[i] == r.(phase := InFlight, header := c'.requests[i].header)
            && (c.accessToken.Some? ==> c'.requests[i].header == c.accessToken)
  {
  }

  /** The 401 replies of a run. */
  function Unauthorized(events: seq<Event>): nat {
    if events == [] then 0
    else (if events[0].Failure? && events[0].status == Some(401) then 1 else 0) + Unauthorized(events[1..])
  }

  /** Every refresh answers a 401. */
  lemma {:induction false} RefreshesAnswer401s(c: Client, events: seq<Event>)
    requires IsRun(c, events)
    ensures c.refreshes <= After(c, events).refreshes <= c.refreshes + Unauthorized(events)
    decreases |events|
  {
    if events != [] {
      if events[0].Failure? { FailureDoes(c, events[0].i, events[0].status); }
      RefreshesAnswer401s(Next(c, events[0]), events[1..]);
    }
  }

  // ─── The default header ─────────────────────────────────────────────────────

  /** The token of the last successful refresh. */
  function LastRefreshed(events: seq<Event>): Option<Token> {
    if events == [] then None
    else
      var rest := LastRefreshed(events[1..]);
      if rest.Some? then rest else if events[0].Refreshed? then Some(events[0].token) else None
  }

  lemma {:induction false} RefreshedAtSomeTime(events: seq<Event>)
    ensures LastRefreshed(events).Some? <==> exists k: nat :: k < |events| && events[k].Refreshed?
    decreases |events|
  {
    if events != [] {
      var rest := events[1..];
      RefreshedAtSomeTime(rest);
      if k: nat :| k < |rest| && rest[k].Refreshed? { assert events[k + 1].Refreshed?; }
      if k: nat :| k < |events| && events[k].Refreshed? { assert k > 0 ==> rest[k - 1].Refreshed?; }
    }
  }

  /** Only a successful refresh writes the default header, and nothing clears it. */
  lemma {:induction false} DefaultIsLastRefreshed(c: Client, events: seq<Event>)
    requires IsRun(c, events)
    ensures After(c, events).defaultHeader == if LastRefreshed(events).Some? then LastRefreshed(events)
            else c.defaultHeader
    decreases |events|
  {
    if events != [] { DefaultIsLastRefreshed(Next(c, events[0]), events[1..]); }
  }

  lemma {:induction false} UnsentIsUntouched(c: Client, events: seq<Event>, i: nat)
    requires Inv(c) && IsRun(c, events) && i < |c.requests| && i < |After(c, events).requests|
    requires After(c, events).requests[i].phase.Unsent?
    ensures After(c, events).requests[i] == c.requests[i]
    decreases |events|
  {
    if events != [] {
      NextKeeps(c, events[0]);
      UnsentIsUntouched(Next(c, events[0]), events[1..], i);
    }
  }

  /** A new request sent while there is no token in memory, after a logout or a failed refresh, still carries
      the token of the last successful refresh; it carries none exactly when no refresh ever succeeded. */
  lemma TokenlessRequestCarries(c: Client, events: seq<Event>, i: nat)
    requires IsFresh(c) && IsRun(c, events) && Enabled(After(c, events), Send(i)) && After(c, events).accessToken.None?
    ensures var sent := Next(After(c, events), Send(i)).requests[i];
            && sent.header == LastRefreshed(events)
            && (sent.header.Some? <==> exists k: nat :: k < |events| && events[k].Refreshed?)
  {
    FreshIsSound(c);
    RunKeeps(c, events);
    UnsentIsUntouched(c, events, i);
    DefaultIsLastRefreshed(c, events);
    RefreshedAtSomeTime(events);
  }

  /** Three requests: the first leads a refresh that succeeds, the second one that fails, and the third still
      goes out with the token of the first. */
  lemma FailedRefreshLeavesTheHeader(token: Token)
    ensures var unsent := Request(None, false, Unsent, None, 0);
            var c := Client(None, None, false, [], [unsent, unsent, unsent], 0);
            var events := [Send(0), Failure(0, Some(401)), Refreshed(token), Send(1), Failure(1, Some(401)),
                RefreshFailed];
            && IsFresh(c) && IsRun(c, events) && After(c, events).accessToken.None?
            && Enabled(After(c, events), Send(2)) && Next(After(c, events), Send(2)).requests[2].header == Some(token)
  {
    var unsent := Request(None, false, Unsent, None, 0);
    var c := Client(None, None, false, [], [unsent, unsent, unsent], 0);
    var first, second := Round(0, Refreshed(token)), Round(1, RefreshFailed);
    RoundIsARun(c, 0, Refreshed(token), second);
    RoundIsARun(After(c, first), 1, RefreshFailed, []);
    assert second + [] == second;
    assert first + second == [Send(0), Failure(0, Some(401)), Refreshed(token), Send(1), Failure(1, Some(401)),
        RefreshFailed];
  }

  /** Request i is sent, answered with 401, and the refresh it leads has its reply. */
  function Round(i: nat, reply: Event): seq<Event> { [Send(i), Failure(i, Some(401)), reply] }

  predicate IsIdle(c: Client, i: nat) {
    && !c.isRefreshing && c.failedQueue == [] && i < |c.requests| && c.requests[i].phase.Unsent? && !c.requests[i].retry
    && c.requests[i].url.None? && forall j: nat | j < |c.requests| :: !c.requests[j].phase.Leading?
  }

  lemma RoundIsARun(c: Client, i: nat, reply: Event, rest: seq<Event>)
    requires IsIdle(c, i) && (reply.Refreshed? || reply.RefreshFailed?)
    ensures IsRun(c, Round(i, reply))
    ensures var c' := After(c, Round(i, reply));
            && !c'.isRefreshing && c'.failedQueue == [] && |c'.requests| == |c.requests|
            && (forall j: nat | j < |c.requests| && j != i :: c'.requests[j] == c.requests[j])
            && !c'.requests[i].phase.Leading?
            && c'.accessToken == (if reply.Refreshed? then Some(reply.token) else None)
            && c'.defaultHeader == (if reply.Refreshed? then Some(reply.token) else c.defaultHeader)
            && (IsRun(c', rest) ==>
                  IsRun(c, Round(i, reply) + rest) && After(c, Round(i, reply) + rest) == After(c', rest))
  {
    var sent := Next(c, Send(i));
    var leading := Next(sent, Failure(i, Some(401)));
    var done := Next(leading, reply);
    OneEvent(leading, reply, []);
    OneEvent(sent, Failure(i, Some(401)), [reply]);
    OneEvent(c, Send(i), [Failure(i, Some(401)), reply]);
    assert [reply] + [] == [reply];
    assert [Failure(i, Some(401))] + [reply] == [Failure(i, Some(401)), reply];
    assert [Send(i)] + [Failure(i, Some(401)), reply] == Round(i, reply);
    RunSplits(c, Round(i, reply), rest);
  }

  lemma OneEvent(c: Client, e: Event, rest: seq<Event>)
    requires Enabled(c, e) && IsRun(Next(c, e), rest)
    ensures IsRun(c, [e] + rest) && After(c, [e] + rest) == After(Next(c, e), rest)
  {
    assert ([e] + rest)[1..] == rest;
  }

  lemma {:induction false} RunSplits(c: Client, events: seq<Event>, rest: seq<Event>)
    requires IsRun(c, events)
    ensures IsRun(After(c, events), rest) ==>
              IsRun(c, events + rest) && After(c, events + rest) == After(After(c, events), rest)
    decreases |events|
  {
    if events == [] {
      assert events + rest == rest;
    } else {
      assert (events + rest)[1..] == events[1..] + rest;
      RunSplits(Next(c, events[0]), events[1..], rest);
    }
  }

  // ─── The module's own state ─────────────────────────────────────────────────

  /** The variables of the module and the requests its handlers were called for. */
  class ApiClient {
    var accessToken: Option<Token>
    var defaultHeader: Option<Token>
    var isRefreshing: bool
    var failedQueue: seq<nat>
    var requests: seq<Request>
    ghost var refreshes: nat

    ghost function State(): Client
      reads this
    {
      Client(accessToken, defaultHeader, isRefreshing, failedQueue, requests, refreshes)
    }

    ghost predicate Valid()
      reads this
    {
      Inv(State())
    }

    constructor (urls: seq<Option<string>>)
      ensures Valid() && IsFresh(State())
      ensures |requests| == |urls| && forall i: nat | i < |urls| :: requests[i].url == urls[i]
    {
      accessToken := None;
      defaultHeader := None;
      isRefreshing := false;
      failedQueue := [];
      requests := seq(|urls|, (i: nat) requires i < |urls| => Request(urls[i], false, Unsent, None, 0));
      refreshes := 0;
      new;
      FreshIsSound(State());
    }

    /** setAccessToken, as the hooks call it. */
    method SetAccessToken(token: Option<Token>)
      requires Valid()
      modifies this`accessToken
      ensures Valid() && State() == Next(old(State()), SetToken(token))
    {
      NextKeeps(State(), SetToken(token));
      accessToken := token;
    }

    /** The request interceptor and the transmission. */
    method Dispatch(i: nat)
      requires Valid() && i < |requests|
      modifies this`requests
      ensures requests == old(requests)[i := Transmit(old(requests)[i], accessToken, defaultHeader)]
    {
      if requests[i].header.None? {
        requests := requests[i := requests[i].(header := defaultHeader)];
      }
      if accessToken.Some? {
        requests := requests[i := requests[i].(header := accessToken)];
      }
      requests := requests[i := requests[i].(phase := InFlight)];
    }

    method SendRequest(i: nat)
      requires Valid() && i < |requests| && requests[i].phase.Unsent?
      modifies this
      ensures Valid() && State() == Next(old(State()), Send(i))
    {
      NextKeeps(State(), Send(i));
      Dispatch(i);
    }

    method OnSuccess(i: nat)
      requires Valid() && i < |requests| && requests[i].phase.InFlight?
      modifies this
      ensures Valid() && State() == Next(old(State()), Success(i))
    {
      NextKeeps(State(), Success(i));
      requests := requests[i := Settle(requests[i], Resolved)];
    }

    /** The response interceptor, up to the point where it waits or is done. */
    method OnFailure(i: nat, status: Option<nat>)
      requires Valid() && i < |requests| && requests[i].phase.InFlight?
      modifies this
      ensures Valid() && State() == Next(old(State()), Failure(i, status))
    {
      NextKeeps(State(), Failure(i, status));
      HandleFailure(i, status);
    }

    method HandleFailure(i: nat, status: Option<nat>)
      requires i < |requests| && requests[i].phase.InFlight?
      modifies this
      ensures State() == Next(old(State()), Failure(i, status))
    {
      if status == Some(401) && !requests[i].retry && !IsAuthEndpoint(requests[i].url) {
        if isRefreshing {
          requests := requests[i := requests[i].(phase := Queued)];
          failedQueue := failedQueue + [i];
          return;
        }
        requests := requests[i := requests[i].(retry := true, phase := Leading)];
        isRefreshing := true;
        refreshes := refreshes + 1;
        return;
      }
      requests := requests[i := Settle(requests[i], Rejected)];
    }

    /** processQueue: resolves or rejects whoever waits in the queue and empties it. Resolving lets the
        waiting handler send its request again. */
    method ProcessQueue(token: Option<Token>)
      requires forall i: nat | i in failedQueue :: i < |requests|
      requires forall x: nat, y: nat | x < y < |failedQueue| :: failedQueue[x] != failedQueue[y]
      modifies this`requests, this`failedQueue
      ensures failedQueue == []
      ensures |requests| == |old(requests)|
      ensures forall i: nat | i < |requests| ::
                requests[i] == if i !in old(failedQueue) then old(requests)[i]
                               else if token.None? then Settle(old(requests)[i], Rejected)
                               else Transmit(old(requests)[i].(header := token), accessToken, defaultHeader)
    {
      ghost var before := requests;
      var n := 0;
      while n < |failedQueue|
        invariant n <= |failedQueue| && failedQueue == old(failedQueue)
        invariant |requests| == |before|
        invariant forall i: nat | i < |requests| ::
                    requests[i] == if i !in failedQueue[..n] then before[i]
                                   else if token.None? then Settle(before[i], Rejected)
                                   else Transmit(before[i].(header := token), accessToken, defaultHeader)
      {
        var i := failedQueue[n];
        assert i in failedQueue && i !in failedQueue[..n];
        if token.None? {
          requests := requests[i := Settle(requests[i], Rejected)];
        } else {
          requests := requests[i := Transmit(requests[i].(header := token), accessToken, defaultHeader)];
        }
        n := n + 1;
      }
      assert failedQueue[..n] == failedQueue;
      failedQueue := [];
    }

    /** The leader's handler when the refresh call has answered. */
    method OnRefreshed(leader: nat, token: Token)
      requires Valid() && leader < |requests| && requests[leader].phase.Leading?
      modifies this
      ensures Valid() && State() == Next(old(State()), Refreshed(token))
    {
      ghost var before := State();
      NextKeeps(before, Refreshed(token));
      accessToken := Some(token);
      defaultHeader := Some(token);
      QueueOnly(before, leader);
      ProcessQueue(Some(token));
      requests := requests[leader := Transmit(requests[leader], accessToken, defaultHeader)];
      isRefreshing := false;
      assert requests == Released(before, token);
    }

    method OnRefreshFailed(leader: nat)
      requires Valid() && leader < |requests| && requests[leader].phase.Leading?
      modifies this
      ensures Valid() && State() == Next(old(State()), RefreshFailed)
    {
      ghost var before := State();
      NextKeeps(before, RefreshFailed);
      QueueOnly(before, leader);
      ProcessQueue(None);
      accessToken := None;
      requests := requests[leader := Settle(requests[leader], Rejected)];
      isRefreshing := false;
      assert requests == Dropped(before);
    }
  }
}
