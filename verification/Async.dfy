/**
 * Asynchronous function calls: cookies, pending lists and waiting for a cookie.
 * Each critical section under async_lock is one step.
 */
module Async {
  import opened Lists
  import opened Options
  import opened SetFacts

  const COOKIE_MAX := 0xFFFF_FFFF_FFFF_FFFF
  const MAX_WORK := 32768

  datatype Entry = Entry(cookie: nat, dom: nat, data: nat)
  datatype Domain = Domain(registered: bool, pending: seq<Entry>)

  /**
   * The queues, and the history of calls: `queued` and `inline` are all calls ever queued or run
   * synchronously, by cookie, and `finished` the cookies of those that have returned.
   */
  datatype State = State(next: nat, domains: map<nat, Domain>, global: seq<Entry>, count: int,
                         queued: map<nat, Entry>, inline: map<nat, nat>, finished: set<nat>)

  ghost predicate Increasing(l: seq<Entry>) {
    forall i, j :: 0 <= i < j < |l| ==> l[i].cookie < l[j].cookie
  }

  /** The list holds exactly these calls, oldest first. */
  ghost predicate Holds(l: seq<Entry>, calls: set<Entry>) {
    Increasing(l) && forall e :: e in l <==> e in calls
  }

  /** The queued calls that have not returned. */
  ghost function Live(s: State): set<Entry> {
    set c | c in s.queued && c !in s.finished :: s.queued[c]
  }

  ghost function OnDomain(live: set<Entry>, d: nat): set<Entry> {
    set e | e in live && e.dom == d
  }

  ghost function OnRegistered(live: set<Entry>, domains: map<nat, Domain>): set<Entry> {
    set e | e in live && e.dom in domains && domains[e.dom].registered
  }

  ghost predicate QueuedOk(queued: map<nat, Entry>, next: nat, doms: set<nat>) {
    forall c :: c in queued ==> c < next && queued[c].cookie == c && queued[c].dom in doms
  }

  ghost predicate InlineOk(inline: map<nat, nat>, next: nat, doms: set<nat>) {
    forall c :: c in inline ==> c < next && inline[c] in doms
  }

  ghost predicate CountOk(count: int, queued: set<nat>, finished: set<nat>) {
    count == |queued - finished|
  }

  ghost predicate CallsOk(queued: map<nat, Entry>, inline: map<nat, nat>, finished: set<nat>, next: nat, doms: set<nat>) {
    && QueuedOk(queued, next, doms) && InlineOk(inline, next, doms)
    && (forall c :: c in inline ==> c !in queued) && (forall c :: c in finished ==> c in queued || c in inline)
  }

  ghost predicate HistoryOk(s: State) {
    CallsOk(s.queued, s.inline, s.finished, s.next, s.domains.Keys) && CountOk(s.count, s.queued.Keys, s.finished)
  }

  /** Every pending list holds the unfinished calls of its domain, the global list those of registered domains. */
  ghost predicate QueuesOk(live: set<Entry>, domains: map<nat, Domain>, global: seq<Entry>) {
    && (forall d :: d in domains ==> Holds(domains[d].pending, OnDomain(live, d)))
    && Holds(global, OnRegistered(live, domains))
  }

  ghost predicate Inv(s: State) {
    1 <= s.next && HistoryOk(s) && QueuesOk(Live(s), s.domains, s.global)
  }

  // ---------------------------------------------------------------- lists

  lemma ListAppend(l: seq<Entry>, calls: set<Entry>, e: Entry)
    requires Holds(l, calls) && forall x :: x in calls ==> x.cookie < e.cookie
    ensures Holds(l + [e], calls + {e})
  {
  }

  lemma ListRemove(l: seq<Entry>, calls: set<Entry>, e: Entry)
    requires Holds(l, calls)
    ensures Holds(Without(l, e), calls - {e})
  {
    WithoutOrdered(l, e, (x: Entry, y: Entry) => x.cookie < y.cookie);
  }

  // ---------------------------------------------------------------- steps

  datatype Op =
    | NewDomain(d: nat, registered: bool)
    | Unregister(d: nat)
    | Queue(d: nat, data: nat)
    | Inline(d: nat)
    | Return(cookie: nat)
    | InlineReturn(cookie: nat)

  ghost predicate Enabled(s: State, op: Op) {
    match op
    case NewDomain(d, _) => d !in s.domains
    case Unregister(d) => d in s.domains && s.domains[d].registered && s.domains[d].pending == []
    case Queue(d, _) => d in s.domains && s.next < COOKIE_MAX && s.count <= MAX_WORK
    case Inline(d) => d in s.domains && s.next < COOKIE_MAX
    case Return(c) => c in s.queued && c !in s.finished
    case InlineReturn(c) => c in s.inline && c !in s.finished
  }

  /** __async_schedule, the queueing case. */
  function Queued(s: State, d: nat, data: nat): State
    requires d in s.domains
  {
    var e := Entry(s.next, d, data);
    var dom := s.domains[d];
    s.(next := s.next + 1, count := s.count + 1, queued := s.queued[s.next := e],
       domains := s.domains[d := dom.(pending := dom.pending + [e])],
       global := if dom.registered then s.global + [e] else s.global)
  }

  /** async_run_entry_fn after the call has returned. */
  function Returned(s: State, c: nat): State
    requires c in s.queued && s.queued[c].dom in s.domains
  {
    var e := s.queued[c];
    s.(count := s.count - 1, finished := s.finished + {c},
       domains := s.domains[e.dom := s.domains[e.dom].(pending := Without(s.domains[e.dom].pending, e))],
       global := Without(s.global, e))
  }

  ghost function Apply(s: State, op: Op): State
    requires Inv(s) && Enabled(s, op)
  {
    match op
    case NewDomain(d, registered) => s.(domains := s.domains[d := Domain(registered, [])])
    case Unregister(d) => s.(domains := s.domains[d := s.domains[d].(registered := false)])
    case Queue(d, data) => Queued(s, d, data)
    case Inline(d) => s.(next := s.next + 1, inline := s.inline[s.next := d])
    case Return(c) => Returned(s, c)
    case InlineReturn(c) => s.(finished := s.finished + {c})
  }

  lemma LiveBelow(s: State, e: Entry)
    requires HistoryOk(s)
    ensures e in Live(s) <==> e.cookie in s.queued && s.queued[e.cookie] == e && e.cookie !in s.finished
    ensures e in Live(s) ==> e.cookie < s.next && e.dom in s.domains
  {
  }

  lemma CallsQueue(queued: map<nat, Entry>, inline: map<nat, nat>, finished: set<nat>, next: nat, doms: set<nat>, e: Entry)
    requires CallsOk(queued, inline, finished, next, doms) && e.cookie == next && e.dom in doms
    ensures CallsOk(queued[next := e], inline, finished, next + 1, doms) && next !in queued && next !in finished
  {
  }

  lemma CallsDomains(queued: map<nat, Entry>, inline: map<nat, nat>, finished: set<nat>, next: nat, doms: set<nat>, doms': set<nat>)
    requires CallsOk(queued, inline, finished, next, doms) && doms <= doms'
    ensures CallsOk(queued, inline, finished, next, doms')
  {
  }

  lemma CountPlus(count: int, queued: set<nat>, finished: set<nat>, c: nat)
    requires CountOk(count, queued, finished) && c !in queued && c !in finished
    ensures CountOk(count + 1, queued + {c}, finished)
  {
    assert queued + {c} - finished == queued - finished + {c};
  }

  lemma CountMinus(count: int, queued: set<nat>, finished: set<nat>, c: nat)
    requires CountOk(count, queued, finished) && c in queued && c !in finished
    ensures CountOk(count - 1, queued, finished + {c})
  {
    assert queued - (finished + {c}) == queued - finished - {c};
    SizeWithout(queued - finished, c);
  }

  lemma QueueHistory(s: State, d: nat, data: nat)
    requires HistoryOk(s) && d in s.domains
    ensures HistoryOk(Queued(s, d, data)) && s.next !in s.queued && s.next !in s.finished
  {
    var t := Queued(s, d, data);
    CallsQueue(s.queued, s.inline, s.finished, s.next, s.domains.Keys, Entry(s.next, d, data));
    CountPlus(s.count, s.queued.Keys, s.finished, s.next);
    hide CallsOk, CountOk;
    assert t.domains.Keys == s.domains.Keys;
    assert t.queued.Keys == s.queued.Keys + {s.next};
  }

  lemma QueueLive(s: State, d: nat, data: nat)
    requires HistoryOk(s) && d in s.domains
    ensures HistoryOk(Queued(s, d, data)) && Live(Queued(s, d, data)) == Live(s) + {Entry(s.next, d, data)}
  {
    hide Live, HistoryOk;
    QueueHistory(s, d, data);
    var t := Queued(s, d, data);
    forall e ensures e in Live(t) <==> e in Live(s) || e == Entry(s.next, d, data) {
      LiveBelow(s, e);
      LiveBelow(t, e);
    }
  }

  lemma QueueQueues(live: set<Entry>, domains: map<nat, Domain>, global: seq<Entry>, e: Entry)
    requires QueuesOk(live, domains, global) && e.dom in domains && forall x :: x in live ==> x.cookie < e.cookie
    ensures var dom := domains[e.dom];
            QueuesOk(live + {e}, domains[e.dom := dom.(pending := dom.pending + [e])],
                     if dom.registered then global + [e] else global)
  {
    var dom := domains[e.dom];
    var domains' := domains[e.dom := dom.(pending := dom.pending + [e])];
    ListAppend(dom.pending, OnDomain(live, e.dom), e);
    if dom.registered { ListAppend(global, OnRegistered(live, domains), e); }
    hide Holds;
    forall d | d in domains' ensures Holds(domains'[d].pending, OnDomain(live + {e}, d)) {
      assert OnDomain(live + {e}, d) == if d == e.dom then OnDomain(live, d) + {e} else OnDomain(live, d);
    }
    assert OnRegistered(live + {e}, domains') == OnRegistered(live, domains) + if dom.registered then {e} else {};
  }

  lemma QueueKeepsInv(s: State, d: nat, data: nat)
    requires Inv(s) && d in s.domains
    ensures Inv(Queued(s, d, data))
  {
    hide HistoryOk, QueuesOk;
    forall e | e in Live(s) ensures e.cookie < s.next { LiveBelow(s, e); }
    QueueLive(s, d, data);
    hide Live;
    QueueQueues(Live(s), s.domains, s.global, Entry(s.next, d, data));
  }

  lemma ReturnLive(s: State, c: nat)
    requires HistoryOk(s) && c in s.queued && c !in s.finished
    ensures s.queued[c].dom in s.domains && HistoryOk(Returned(s, c))
    ensures Live(Returned(s, c)) == Live(s) - {s.queued[c]}
  {
    var t := Returned(s, c);
    CountMinus(s.count, s.queued.Keys, s.finished, c);
    assert t.domains.Keys == s.domains.Keys;
    hide CountOk;
    forall e ensures e in Live(t) <==> e in Live(s) && e != s.queued[c] {
      LiveBelow(s, e);
      LiveBelow(t, e);
    }
  }

  lemma ReturnQueues(live: set<Entry>, domains: map<nat, Domain>, global: seq<Entry>, e: Entry)
    requires QueuesOk(live, domains, global) && e.dom in domains
    ensures QueuesOk(live - {e}, domains[e.dom := domains[e.dom].(pending := Without(domains[e.dom].pending, e))],
                     Without(global, e))
  {
    var domains' := domains[e.dom := domains[e.dom].(pending := Without(domains[e.dom].pending, e))];
    ListRemove(domains[e.dom].pending, OnDomain(live, e.dom), e);
    ListRemove(global, OnRegistered(live, domains), e);
    hide Holds;
    forall d | d in domains' ensures Holds(domains'[d].pending, OnDomain(live - {e}, d)) {
      assert OnDomain(live - {e}, d) == if d == e.dom then OnDomain(live, d) - {e} else OnDomain(live, d);
    }
    assert OnRegistered(live - {e}, domains') == OnRegistered(live, domains) - {e};
  }

  lemma ReturnKeepsInv(s: State, c: nat)
    requires Inv(s) && c in s.queued && c !in s.finished
    ensures s.queued[c].dom in s.domains && Inv(Returned(s, c))
  {
    hide HistoryOk, QueuesOk;
    ReturnLive(s, c);
    hide Live;
    ReturnQueues(Live(s), s.domains, s.global, s.queued[c]);
  }

  /** Domains come, empty, and leave the global list, also empty. */
  lemma DomainKeepsQueues(live: set<Entry>, domains: map<nat, Domain>, global: seq<Entry>, d: nat, registered: bool)
    requires QueuesOk(live, domains, global)
    requires d in domains ==> domains[d].pending == []
    requires forall e :: e in live ==> e.dom in domains
    ensures QueuesOk(live, domains[d := Domain(registered, [])], global)
  {
    var domains' := domains[d := Domain(registered, [])];
    assert d in domains ==> Holds(domains[d].pending, OnDomain(live, d));
    assert OnDomain(live, d) == {};
    assert forall e :: e in live ==> (e in OnDomain(live, d) <==> e.dom == d);
    assert OnRegistered(live, domains') == OnRegistered(live, domains);
    hide Holds;
    forall d' | d' in domains' && d' != d ensures Holds(domains'[d'].pending, OnDomain(live, d')) { }
    EmptyLists();
  }

  lemma EmptyLists()
    ensures Holds([], {})
  {
  }

  lemma SameLive(s: State, t: State)
    requires HistoryOk(s) && t.queued == s.queued && s.finished <= t.finished && t.finished !! (s.queued.Keys - s.finished)
    ensures Live(t) == Live(s) && CountOk(s.count, t.queued.Keys, t.finished)
  {
    assert t.queued.Keys - t.finished == s.queued.Keys - s.finished;
  }

  lemma DomainKeepsInv(s: State, d: nat, registered: bool)
    requires Inv(s) && (d in s.domains ==> s.domains[d].pending == [])
    ensures Inv(s.(domains := s.domains[d := Domain(registered, [])]))
  {
    hide Live, QueuesOk, CountOk, CallsOk;
    var t := s.(domains := s.domains[d := Domain(registered, [])]);
    SameLive(s, t);
    forall e | e in Live(s) ensures e.dom in s.domains { LiveBelow(s, e); }
    CallsDomains(s.queued, s.inline, s.finished, s.next, s.domains.Keys, t.domains.Keys);
    DomainKeepsQueues(Live(s), s.domains, s.global, d, registered);
  }

  lemma InlineKeepsInv(s: State, d: nat)
    requires Inv(s) && d in s.domains
    ensures Inv(s.(next := s.next + 1, inline := s.inline[s.next := d]))
  {
  }

  lemma InlineReturnKeepsInv(s: State, c: nat)
    requires Inv(s) && c in s.inline
    ensures Inv(s.(finished := s.finished + {c}))
  {
    SameLive(s, s.(finished := s.finished + {c}));
    hide Live, QueuesOk, CountOk;
  }

  lemma ApplyKeepsInv(s: State, op: Op)
    requires Inv(s) && Enabled(s, op)
    ensures Inv(Apply(s, op))
  {
    hide Inv;
    match op
    case Queue(d, data) => QueueKeepsInv(s, d, data);
    case Return(c) => ReturnKeepsInv(s, c);
    case NewDomain(d, r) => DomainKeepsInv(s, d, r);
    case Unregister(d) => DomainKeepsInv(s, d, false);
    case Inline(d) => InlineKeepsInv(s, d);
    case InlineReturn(c) => InlineReturnKeepsInv(s, c);
  }

  // ---------------------------------------------------------------- runs

  function Boot(): State {
    State(1, map[], [], 0, map[], map[], {})
  }

  lemma BootInv()
    ensures Inv(Boot())
  {
  }

  /** A run of steps; a step that is not enabled does nothing. */
  ghost function Run(s: State, ops: seq<Op>): (t: State)
    requires Inv(s)
    ensures Inv(t)
    decreases |ops|
  {
    if ops == [] then s
    else if Enabled(s, ops[0]) then
      ApplyKeepsInv(s, ops[0]);
      Run(Apply(s, ops[0]), ops[1..])
    else Run(s, ops[1..])
  }

  /** What no step takes back: issued cookies, recorded calls, domains and returns; later calls get later cookies. */
  ghost predicate Extends(s: State, t: State) {
    && s.next <= t.next && s.finished <= t.finished && s.domains.Keys <= t.domains.Keys
    && (forall c :: c in s.queued ==> c in t.queued && t.queued[c] == s.queued[c])
    && (forall c :: c in t.queued && c !in s.queued ==> c >= s.next)
    && (forall c :: c in s.inline ==> c in t.inline && t.inline[c] == s.inline[c])
    && (forall c :: c in t.inline && c !in s.inline ==> c >= s.next)
  }

  lemma StepExtends(s: State, op: Op)
    requires Inv(s) && Enabled(s, op)
    ensures Extends(s, Apply(s, op))
  {
    hide QueuesOk, CountOk;
  }

  lemma ExtendsRefl(s: State)
    ensures Extends(s, s)
  {
  }

  lemma ExtendsTrans(s: State, t: State, u: State)
    requires Extends(s, t) && Extends(t, u)
    ensures Extends(s, u)
  {
  }

  lemma {:induction false} RunExtends(s: State, ops: seq<Op>)
    requires Inv(s)
    ensures Extends(s, Run(s, ops))
    decreases |ops|
  {
    hide Inv, Extends, Apply;
    if ops == [] {
      ExtendsRefl(s);
    } else if Enabled(s, ops[0]) {
      ApplyKeepsInv(s, ops[0]);
      StepExtends(s, ops[0]);
      var t := Apply(s, ops[0]);
      RunExtends(t, ops[1..]);
      ExtendsTrans(s, t, Run(s, ops));
    } else {
      RunExtends(s, ops[1..]);
    }
  }

  // ---------------------------------------------------------------- waiting

  /** lowest_in_progress of a domain. */
  function Lowest(l: seq<Entry>): nat {
    if l == [] then COOKIE_MAX else l[0].cookie
  }

  /** The condition async_synchronize_cookie_domain waits for. */
  predicate Passes(s: State, c: nat, d: nat)
    requires d in s.domains
  {
    Lowest(s.domains[d].pending) >= c
  }

  /** Every call queued on the domain with a smaller cookie has returned. */
  ghost predicate QueuedBeforeDone(s: State, c: nat, d: nat) {
    forall k :: k in s.queued && k < c && s.queued[k].dom == d ==> k in s.finished
  }

  lemma PendingIsLive(s: State, d: nat)
    requires Inv(s) && d in s.domains
    ensures Holds(s.domains[d].pending, OnDomain(Live(s), d))
  {
  }

  lemma LowestIsLeast(l: seq<Entry>)
    requires Increasing(l)
    ensures forall e :: e in l ==> Lowest(l) <= e.cookie
  {
  }

  /** The wait is exact: it ends when, and only when, all earlier calls queued on the domain have returned. */
  lemma WaitIsExact(s: State, c: nat, d: nat)
    requires Inv(s) && d in s.domains && c <= COOKIE_MAX
    ensures Passes(s, c, d) <==> QueuedBeforeDone(s, c, d)
  {
    var l := s.domains[d].pending;
    PendingIsLive(s, d);
    LowestIsLeast(l);
    hide QueuesOk;
    if Passes(s, c, d) {
      forall k | k in s.queued && k < c && s.queued[k].dom == d ensures k in s.finished {
        var e := s.queued[k];
        LiveBelow(s, e);
        assert e in l ==> Lowest(l) <= e.cookie;
      }
    } else {
      var e := l[0];
      assert e in l;
      LiveBelow(s, e);
      assert e.cookie in s.queued && e.cookie < c && e.dom == d;
    }
  }

  /**
   * Once a wait for an issued cookie has ended, every call queued on the domain with a smaller cookie
   * has returned, and no run from then on queues another.
   */
  lemma WaitIsFinal(s: State, c: nat, d: nat, ops: seq<Op>)
    requires Inv(s) && d in s.domains && c <= s.next && c <= COOKIE_MAX && Passes(s, c, d)
    ensures QueuedBeforeDone(Run(s, ops), c, d)
    ensures forall k :: k in Run(s, ops).queued && k < c && Run(s, ops).queued[k].dom == d ==> k in s.queued && k in s.finished
  {
    WaitIsExact(s, c, d);
    RunExtends(s, ops);
  }

  /** A full wait ends exactly when nothing queued on the domain is unfinished. */
  lemma FullWait(s: State, d: nat)
    requires Inv(s) && d in s.domains && s.next <= COOKIE_MAX
    ensures Passes(s, COOKIE_MAX, d) <==> s.domains[d].pending == []
  {
    PendingIsLive(s, d);
    if s.domains[d].pending != [] {
      var e := s.domains[d].pending[0];
      assert e in s.domains[d].pending;
      LiveBelow(s, e);
    }
  }

  // ------------------------------------------------- calls run synchronously

  /** Every call submitted to the domain with a smaller cookie, queued or run synchronously, has returned. */
  ghost predicate AllBeforeDone(s: State, c: nat, d: nat) {
    QueuedBeforeDone(s, c, d) && forall k :: k in s.inline && k < c && s.inline[k] == d ==> k in s.finished
  }

  lemma InlineExample()
    ensures var s := Run(Boot(), [NewDomain(0, true), Inline(0)]);
            0 in s.domains && s.next == 2 && Passes(s, 2, 0) && !AllBeforeDone(s, 2, 0)
  {
  }

  lemma RunOne(s: State, a: Op)
    requires Inv(s) && Enabled(s, a)
    ensures Run(s, [a]) == Apply(s, a)
  {
  }

  lemma RunTwo(s: State, a: Op, b: Op)
    requires Inv(s) && Enabled(s, a) && (ApplyKeepsInv(s, a); Enabled(Apply(s, a), b))
    ensures Inv(Apply(s, a)) && Run(s, [a, b]) == Apply(Apply(s, a), b)
  {
    hide Inv, Apply, Enabled;
    ApplyKeepsInv(s, a);
    RunOne(Apply(s, a), b);
    assert [a, b][1..] == [b];
  }

  // ---------------------------------------------------------------- waiting on all domains

  /**
   * lowest_in_progress(NULL): the head of the global list is taken for a domain_list node, which lies
   * two words earlier in the entry, so the word read is the one two words after the cookie: `data`.
   */
  function LowestNull(s: State): nat {
    if s.global == [] then COOKIE_MAX else s.global[0].data
  }

  /** No unfinished call on a registered domain has a cookie below `c`. */
  ghost predicate GlobalDone(s: State, c: nat) {
    forall e :: e in Live(s) && e.dom in s.domains && s.domains[e.dom].registered ==> e.cookie >= c
  }

  /** Waiting on all domains never ends early exactly when the first call's data word does not exceed its cookie. */
  lemma NullWaitIsSound(s: State)
    requires Inv(s) && forall e :: e in Live(s) ==> e.data <= COOKIE_MAX
    ensures (forall c :: 0 <= c <= COOKIE_MAX && LowestNull(s) >= c ==> GlobalDone(s, c))
            <==> (s.global == [] || s.global[0].data <= s.global[0].cookie)
  {
    var l := s.global;
    assert Holds(l, OnRegistered(Live(s), s.domains));
    LowestIsLeast(l);
    hide QueuesOk, HistoryOk;
    assert forall e :: e in OnRegistered(Live(s), s.domains) <==> e in Live(s) && e.dom in s.domains && s.domains[e.dom].registered;
    if l != [] {
      assert l[0] in l;
      if l[0].data > l[0].cookie {
        assert LowestNull(s) >= l[0].data && !GlobalDone(s, l[0].data);
      }
    }
  }

  lemma GlobalIsLowest(s: State, c: nat)
    requires Inv(s) && s.next <= COOKIE_MAX && c <= COOKIE_MAX
    ensures GlobalDone(s, c) <==> Lowest(s.global) >= c
    ensures s.global != [] ==> s.global[0].cookie < COOKIE_MAX
  {
    var l := s.global;
    assert Holds(l, OnRegistered(Live(s), s.domains));
    LowestIsLeast(l);
    assert forall e :: e in OnRegistered(Live(s), s.domains) <==> e in Live(s) && e.dom in s.domains && s.domains[e.dom].registered;
    if l != [] {
      assert l[0] in l;
      LiveBelow(s, l[0]);
    }
  }

  /** It ends exactly when it should, for every cookie, exactly when that word equals the cookie or nothing is pending. */
  lemma NullWaitIsExact(s: State)
    requires Inv(s) && s.next <= COOKIE_MAX && forall e :: e in Live(s) ==> e.data <= COOKIE_MAX
    ensures (forall c :: 0 <= c <= COOKIE_MAX ==> (LowestNull(s) >= c <==> GlobalDone(s, c)))
            <==> (s.global == [] || s.global[0].data == s.global[0].cookie)
  {
    forall c | 0 <= c <= COOKIE_MAX ensures GlobalDone(s, c) <==> Lowest(s.global) >= c { GlobalIsLowest(s, c); }
    GlobalIsLowest(s, 0);
    GlobalData(s);
    hide Inv, GlobalDone;
    if s.global != [] {
      var data, cookie := s.global[0].data, s.global[0].cookie;
      if data > cookie {
        assert LowestNull(s) >= data && !GlobalDone(s, data);
      } else if data < cookie {
        assert GlobalDone(s, cookie) && !(LowestNull(s) >= cookie);
      }
    }
  }

  lemma GlobalData(s: State)
    requires Inv(s) && forall e :: e in Live(s) ==> e.data <= COOKIE_MAX
    ensures s.global != [] ==> s.global[0].data <= COOKIE_MAX
  {
    assert s.global != [] ==> s.global[0] in s.global;
  }

  /** The first call queued, with a NULL data pointer, holds up even the wait for its own cookie. */
  lemma NullWaitBlocks()
    ensures var s := Run(Boot(), [NewDomain(0, true), Queue(0, 0)]);
            GlobalDone(s, 1) && !(LowestNull(s) >= 1)
  {
    FirstQueued(0);
  }

  /** A pending call with a large data pointer lets the wait on all domains through. */
  lemma NullWaitExample(data: nat)
    requires 2 <= data <= COOKIE_MAX
    ensures var s := Run(Boot(), [NewDomain(0, true), Queue(0, data)]);
            s.next == 2 && LowestNull(s) >= 2 && !GlobalDone(s, 2)
  {
    FirstQueued(data);
  }

  lemma FirstQueued(data: nat)
    ensures var e := Entry(1, 0, data); var s := Run(Boot(), [NewDomain(0, true), Queue(0, data)]);
            s == State(2, map[0 := Domain(true, [e])], [e], 1, map[1 := e], map[], {}) && Live(s) == {e}
  {
    BootInv();
    var e := Entry(1, 0, data);
    var s1 := State(1, map[0 := Domain(true, [])], [], 0, map[], map[], {});
    var s2 := State(2, map[0 := Domain(true, [e])], [e], 1, map[1 := e], map[], {});
    assert Apply(Boot(), NewDomain(0, true)) == s1;
    ApplyKeepsInv(Boot(), NewDomain(0, true));
    assert s1.global + [e] == [e] && s1.domains[0].pending + [e] == [e];
    assert Apply(s1, Queue(0, data)) == s2;
    RunTwo(Boot(), NewDomain(0, true), Queue(0, data));
    assert Live(s2) == {e};
  }

  // ---------------------------------------------------------------- progress

  /** The unfinished call with the smallest cookie of all. */
  ghost predicate Oldest(s: State, e: Entry) {
    e in Live(s) && forall x :: x in Live(s) ==> e.cookie <= x.cookie
  }

  /** The oldest unfinished call is not held up by waiting for its own cookie, on whichever domain. */
  lemma OldestNotBlocked(s: State, e: Entry, d: nat)
    requires Inv(s) && Oldest(s, e) && d in s.domains && s.next <= COOKIE_MAX
    ensures Passes(s, e.cookie, d)
  {
    LiveBelow(s, e);
    PendingIsLive(s, d);
    var l := s.domains[d].pending;
    if l != [] { assert l[0] in l; }
  }

  lemma {:induction false} OldestExists(live: set<Entry>) returns (e: Entry)
    requires live != {}
    ensures e in live && forall x :: x in live ==> e.cookie <= x.cookie
    decreases |live|
  {
    var y :| y in live;
    if live == {y} {
      e := y;
    } else {
      assert live - {y} != {};
      var z := OldestExists(live - {y});
      e := if y.cookie <= z.cookie then y else z;
    }
  }

  /** Returns of calls each of which could pass a wait for its own cookie on any domain. */
  ghost predicate Unblocked(s: State, ops: seq<Op>)
    requires Inv(s)
    decreases |ops|
  {
    ops != [] ==>
      && ops[0].Return? && Enabled(s, ops[0])
      && (forall d :: d in s.domains ==> Passes(s, ops[0].cookie, d))
      && (ApplyKeepsInv(s, ops[0]); Unblocked(Apply(s, ops[0]), ops[1..]))
  }

  lemma DrainStep(s: State) returns (e: Entry)
    requires Inv(s) && s.next <= COOKIE_MAX && Live(s) != {}
    ensures Enabled(s, Return(e.cookie)) && (forall d :: d in s.domains ==> Passes(s, e.cookie, d))
    ensures var t := Apply(s, Return(e.cookie)); Inv(t) && |Live(t)| < |Live(s)| && t.next == s.next
  {
    hide QueuesOk, Live;
    e := OldestExists(Live(s));
    LiveBelow(s, e);
    forall d | d in s.domains ensures Passes(s, e.cookie, d) { OldestNotBlocked(s, e, d); }
    ReturnLive(s, e.cookie);
    ReturnKeepsInv(s, e.cookie);
    var t := Returned(s, e.cookie);
    assert e !in Live(t) && Live(t) <= Live(s) - {e};
    SubsetSize(Live(t), Live(s) - {e});
    SizeWithout(Live(s), e);
  }

  /** Even if every call waits for its own cookie, all calls can return: waiting on one's own cookie never deadlocks. */
  lemma {:induction false} CanDrain(s: State) returns (ops: seq<Op>)
    requires Inv(s) && s.next <= COOKIE_MAX
    ensures Unblocked(s, ops) && Live(Run(s, ops)) == {}
    decreases |Live(s)|
  {
    hide Inv, Apply, Live, Passes;
    if Live(s) == {} { return []; }
    var e := DrainStep(s);
    var rest := CanDrain(Apply(s, Return(e.cookie)));
    ops := [Return(e.cookie)] + rest;
    assert ops[1..] == rest;
  }

  // ------------------------------------------------- when a wait is right

  /** No call on the domain is being run synchronously by its submitter. */
  ghost predicate InlineDone(s: State, d: nat) {
    forall k :: k in s.inline && s.inline[k] == d ==> k in s.finished
  }

  lemma StepInlineDone(s: State, op: Op, d: nat)
    requires Inv(s) && Enabled(s, op) && InlineDone(s, d) && op != Inline(d)
    ensures InlineDone(Apply(s, op), d)
  {
    hide QueuesOk, CountOk;
  }

  lemma {:induction false} RunInlineDone(s: State, ops: seq<Op>, d: nat)
    requires Inv(s) && InlineDone(s, d) && Inline(d) !in ops
    ensures InlineDone(Run(s, ops), d)
    decreases |ops|
  {
    hide Inv, Apply, InlineDone;
    if ops != [] {
      assert Inline(d) !in ops[1..] && ops[0] != Inline(d);
      if Enabled(s, ops[0]) {
        ApplyKeepsInv(s, ops[0]);
        StepInlineDone(s, ops[0], d);
        RunInlineDone(Apply(s, ops[0]), ops[1..], d);
      } else {
        RunInlineDone(s, ops[1..], d);
      }
    }
  }

  /** The wait is right: it ends exactly when all calls submitted to the domain before the cookie are done. */
  ghost predicate RightAt(s: State, c: nat, d: nat) {
    d in s.domains && (Passes(s, c, d) <==> AllBeforeDone(s, c, d))
  }

  lemma RightIfInlineDone(s: State, c: nat, d: nat)
    requires Inv(s) && d in s.domains && c <= COOKIE_MAX && InlineDone(s, d)
    ensures RightAt(s, c, d)
  {
    WaitIsExact(s, c, d);
  }

  /** In every run that never takes the synchronous branch for the domain, every wait on it is right. */
  lemma WaitIsRight(ops: seq<Op>, c: nat, d: nat)
    requires Inline(d) !in ops && c <= COOKIE_MAX && d in Run(Boot(), ops).domains
    ensures RightAt(Run(Boot(), ops), c, d)
  {
    BootInv();
    RunInlineDone(Boot(), ops, d);
    RightIfInlineDone(Run(Boot(), ops), c, d);
  }

  /** __async_schedule: the synchronous branch is taken without memory or with too much pending. */
  ghost function Submit(s: State, d: nat, data: nat, memory: bool): (t: State)
    requires Inv(s) && d in s.domains && s.next < COOKIE_MAX
    ensures Inv(t) && t.next == s.next + 1
  {
    hide Inv;
    var op := if memory && s.count <= MAX_WORK then Queue(d, data) else Inline(d);
    ApplyKeepsInv(s, op);
    Apply(s, op)
  }

  ghost predicate Returns(ops: seq<Op>) {
    forall i :: 0 <= i < |ops| ==> ops[i].Return?
  }

  lemma StepFinishes(s: State, op: Op, k: nat)
    requires Inv(s) && Enabled(s, op) && k in s.inline
    ensures var t := Apply(s, op); k in t.inline && t.inline[k] == s.inline[k]
    ensures k in Apply(s, op).finished <==> k in s.finished || op == InlineReturn(k)
  {
    hide QueuesOk, CountOk;
  }

  /** A call run synchronously is done exactly from the moment it returns to its submitter. */
  lemma {:induction false} RunFinishes(s: State, ops: seq<Op>, k: nat)
    requires Inv(s) && k in s.inline
    ensures var t := Run(s, ops); k in t.inline && t.inline[k] == s.inline[k]
    ensures k in Run(s, ops).finished <==> k in s.finished || InlineReturn(k) in ops
    decreases |ops|
  {
    hide Inv, Apply;
    if ops != [] {
      assert InlineReturn(k) in ops <==> ops[0] == InlineReturn(k) || InlineReturn(k) in ops[1..];
      if Enabled(s, ops[0]) {
        ApplyKeepsInv(s, ops[0]);
        StepFinishes(s, ops[0], k);
        RunFinishes(Apply(s, ops[0]), ops[1..], k);
      } else {
        RunFinishes(s, ops[1..], k);
      }
    }
  }

  lemma {:induction false} UnblockedReturns(s: State, ops: seq<Op>)
    requires Inv(s) && Unblocked(s, ops)
    ensures Returns(ops)
    decreases |ops|
  {
    hide Inv, Apply, Passes;
    if ops != [] {
      ApplyKeepsInv(s, ops[0]);
      UnblockedReturns(Apply(s, ops[0]), ops[1..]);
      assert forall i :: 1 <= i < |ops| ==> ops[i] == ops[1..][i - 1];
    }
  }

  /**
   * From any state, once the synchronous branch has been taken for call k the queued calls can all return,
   * and then a wait for k + 1 ends although call k is not done.
   */
  lemma WaitMissesInline(s: State, d: nat) returns (ops: seq<Op>)
    requires Inv(s) && d in s.domains && s.next < COOKIE_MAX
    ensures Returns(ops)
    ensures var t := Run(Submit(s, d, 0, false), ops);
            d in t.domains && Passes(t, s.next + 1, d) && !AllBeforeDone(t, s.next + 1, d)
  {
    var t := Submit(s, d, 0, false);
    assert s.next in t.inline && t.inline[s.next] == d && d in t.domains;
    NotYetFinished(s, s.next);
    hide Inv, Submit;
    ops := CanDrain(t);
    UnblockedReturns(t, ops);
    RunFinishes(t, ops, s.next);
    RunExtends(t, ops);
    NothingLive(Run(t, ops), s.next + 1, d);
  }

  lemma NotYetFinished(s: State, k: nat)
    requires Inv(s) && k >= s.next
    ensures k !in s.finished
  {
    hide QueuesOk, CountOk;
  }

  lemma NothingLive(s: State, c: nat, d: nat)
    requires Inv(s) && d in s.domains && c <= COOKIE_MAX && Live(s) == {}
    ensures Passes(s, c, d)
  {
    PendingIsLive(s, d);
    HoldsNone(s.domains[d].pending, OnDomain(Live(s), d));
  }

  lemma HoldsNone(l: seq<Entry>, calls: set<Entry>)
    requires Holds(l, calls)
    ensures l == [] <==> calls == {}
  {
    if l != [] { assert l[0] in calls; }
  }

  /** ... and as long as call k has not returned to its submitter, whatever else happens. */
  lemma UndoneUntilReturn(s: State, d: nat, ops: seq<Op>)
    requires Inv(s) && d in s.domains && s.next < COOKIE_MAX && InlineReturn(s.next) !in ops
    ensures !AllBeforeDone(Run(Submit(s, d, 0, false), ops), s.next + 1, d)
  {
    var t := Submit(s, d, 0, false);
    assert s.next in t.inline && t.inline[s.next] == d;
    NotYetFinished(s, s.next);
    hide Inv, Submit;
    RunFinishes(t, ops, s.next);
  }

  /**
   * So the guard of the synchronous branch decides: with no synchronous call under way on the domain, the
   * wait for the call just submitted stays right however the queued calls return, if and only if there was
   * memory for the entry and not too much pending.
   */
  lemma GuardDecides(s: State, d: nat, data: nat, memory: bool)
    requires Inv(s) && d in s.domains && s.next < COOKIE_MAX && InlineDone(s, d)
    ensures (forall ops :: Returns(ops) ==> RightAt(Run(Submit(s, d, data, memory), ops), s.next + 1, d))
            <==> memory && s.count <= MAX_WORK
  {
    var t := Submit(s, d, data, memory);
    if memory && s.count <= MAX_WORK {
      assert InlineDone(t, d) && d in t.domains;
      hide Inv, Submit, InlineDone;
      forall ops | Returns(ops) ensures RightAt(Run(t, ops), s.next + 1, d) {
        RunInlineDone(t, ops, d);
        RunExtends(t, ops);
        RightIfInlineDone(Run(t, ops), s.next + 1, d);
      }
    } else {
      assert t == Submit(s, d, 0, false);
      var ops := WaitMissesInline(s, d);
      assert !RightAt(Run(t, ops), s.next + 1, d);
    }
  }

  // ---------------------------------------------------------------- the queues in place

  lemma LiveCall(s: State, e: Entry)
    requires Inv(s) && e in Live(s)
    ensures e.cookie in s.queued && s.queued[e.cookie] == e && e.cookie !in s.finished
  {
    LiveBelow(s, e);
  }

  class AsyncQueues {
    var next: nat
    var domains: map<nat, Domain>
    var global: seq<Entry>
    var count: int
    ghost var queued: map<nat, Entry>
    ghost var inline: map<nat, nat>
    ghost var finished: set<nat>

    ghost function View(): State reads this {
      State(next, domains, global, count, queued, inline, finished)
    }

    constructor ()
      ensures View() == Boot() && Inv(View())
    {
      next, domains, global, count, queued, inline, finished := 1, map[], [], 0, map[], map[], {};
      new;
      BootInv();
    }

    /** __async_schedule; `memory` says whether the entry could be allocated. */
    method Schedule(d: nat, data: nat, memory: bool) returns (cookie: nat)
      requires Inv(View()) && d in domains && next < COOKIE_MAX
      modifies this
      ensures Inv(View()) && cookie == old(next)
      ensures View() == Submit(old(View()), d, data, memory)
      ensures next == old(next) + 1 && finished == old(finished)
      ensures var e, was := Entry(cookie, d, data), old(domains)[d];
              if memory && old(count) <= MAX_WORK then
                && queued == old(queued)[cookie := e] && inline == old(inline) && count == old(count) + 1
                && domains == old(domains)[d := Domain(was.registered, was.pending + [e])]
                && global == old(global) + (if was.registered then [e] else [])
              else
                && queued == old(queued) && inline == old(inline)[cookie := d] && count == old(count)
                && domains == old(domains) && global == old(global)
    {
      hide Inv;
      ApplyKeepsInv(View(), if memory && count <= MAX_WORK then Queue(d, data) else Inline(d));
      cookie := next;
      if !memory || count > MAX_WORK {
        inline := inline[next := d];
        next := next + 1;
        return;
      }
      var entry := Entry(next, d, data);
      queued := queued[next := entry];
      next := next + 1;
      domains := domains[d := domains[d].(pending := domains[d].pending + [entry])];
      if domains[d].registered { global := global + [entry]; }
      count := count + 1;
    }

    /** async_run_entry_fn, once the call has returned: off the pending lists, wherever in them the entry is. */
    method RemoveEntry(e: Entry)
      requires Inv(View()) && e in Live(View())
      modifies this
      ensures Inv(View()) && e.cookie in old(queued) && View() == Apply(old(View()), Return(e.cookie))
      ensures next == old(next) && queued == old(queued) && inline == old(inline)
      ensures finished == old(finished) + {e.cookie} && count == old(count) - 1
      ensures e.dom in old(domains) && e !in domains[e.dom].pending && e !in global
      ensures domains == old(domains)[e.dom := Domain(old(domains)[e.dom].registered, domains[e.dom].pending)]
      ensures forall x :: x != e ==> (x in domains[e.dom].pending <==> x in old(domains)[e.dom].pending)
      ensures forall x :: x != e ==> (x in global <==> x in old(global))
    {
      hide Inv, Without, Live;
      LiveCall(View(), e);
      ReturnKeepsInv(View(), e.cookie);
      domains := domains[e.dom := domains[e.dom].(pending := Without(domains[e.dom].pending, e))];
      global := Without(global, e);
      count := count - 1;
      finished := finished + {e.cookie};
    }

    /** The test a waiter repeats until it holds, for a domain. */
    method WaitEnds(cookie: nat, d: nat) returns (r: bool)
      requires Inv(View()) && d in domains && cookie <= COOKIE_MAX
      ensures r <==> QueuedBeforeDone(View(), cookie, d)
    {
      WaitIsExact(View(), cookie, d);
      var ret := COOKIE_MAX;
      if domains[d].pending != [] { ret := domains[d].pending[0].cookie; }
      return ret >= cookie;
    }
  }
}
