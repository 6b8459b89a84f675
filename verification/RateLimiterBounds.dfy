/** The limiter against simple counters: refinement, interval bounds and bounded work. */
module RateLimiterBounds {
  import opened Wrappers
  import opened RateLimiter
  import opened RateLimiterLaws

  /** The reference: one fixed window that starts on the first attempt it sees. */
  datatype Counter = Counter(reset: real, count: nat)

  function Tick(limit: int, window: int, c: Counter, now: real): (Counter, Option<int>) {
    var current := if now >= c.reset then Counter(now + window as real, 0) else c;
    if current.count >= limit then (current, Some(Delay(current.reset, now)))
    else (current.(count := current.count + 1), None)
  }

  function Answers(limit: int, window: int, c: Counter, times: seq<real>): seq<Option<int>>
    decreases |times|
  {
    if times == [] then []
    else
      var (next, answer) := Tick(limit, window, c, times[0]);
      [answer] + Answers(limit, window, next, times[1..])
  }

  function CountAdmitted(answers: seq<Option<int>>): nat {
    if answers == [] then 0 else (if answers[0].None? then 1 else 0) + CountAdmitted(answers[1..])
  }

  // What the limiter's run shows of one client and of the global window

  /** The times at which the client's own quota decides: neither ceiling nor capacity rejects. */
  function QuotaTimes(cfg: Config, gate: Gate, arrivals: seq<Arrival>, client: string): seq<real>
    requires Positive(cfg)
    decreases |arrivals|
  {
    if arrivals == [] then []
    else
      var (next, answer) := Attempt(cfg, gate, arrivals[0].now, arrivals[0].client);
      (if arrivals[0].client == client && (answer.Admitted? || answer.ClientFull?) then [arrivals[0].now] else [])
      + QuotaTimes(cfg, next, arrivals[1..], client)
  }

  /** The answers at those times. */
  function QuotaAnswers(cfg: Config, gate: Gate, arrivals: seq<Arrival>, client: string): seq<Option<int>>
    requires Positive(cfg)
    decreases |arrivals|
  {
    if arrivals == [] then []
    else
      var (next, answer) := Attempt(cfg, gate, arrivals[0].now, arrivals[0].client);
      (if arrivals[0].client == client && (answer.Admitted? || answer.ClientFull?) then [answer.RetryAfter()] else [])
      + QuotaAnswers(cfg, next, arrivals[1..], client)
  }

  /** How often the client is admitted. */
  function AdmittedOf(cfg: Config, gate: Gate, arrivals: seq<Arrival>, client: string): nat
    requires Positive(cfg)
    decreases |arrivals|
  {
    if arrivals == [] then 0
    else
      var (next, answer) := Attempt(cfg, gate, arrivals[0].now, arrivals[0].client);
      (if arrivals[0].client == client && answer.Admitted? then 1 else 0) + AdmittedOf(cfg, next, arrivals[1..], client)
  }

  /** How many attempts, by any client, pass the global ceiling. */
  function PassedGlobal(cfg: Config, gate: Gate, arrivals: seq<Arrival>): nat
    requires Positive(cfg)
    decreases |arrivals|
  {
    if arrivals == [] then 0
    else
      var (next, answer) := Attempt(cfg, gate, arrivals[0].now, arrivals[0].client);
      (if answer.GlobalFull? then 0 else 1) + PassedGlobal(cfg, next, arrivals[1..])
  }

  // Refinement

  /** The counter agrees with the client's entry, or both say that no window is running. */
  ghost predicate Agrees(gate: Gate, last: real, client: string, c: Counter) {
    && (forall entry <- gate.clients :: entry.client == client ==> entry.reset == c.reset && entry.count == c.count)
    && ((forall entry <- gate.clients :: entry.client != client) ==> c.reset <= last)
  }

  lemma RefreshAgrees(cfg: Config, gate: Gate, last: real, now: real, client: string, c: Counter)
    requires Positive(cfg) && GateInv(cfg, gate, last) && last <= now && Agrees(gate, last, client, c)
    ensures Agrees(Refresh(cfg, gate, now), now, client, c)
    ensures now < c.reset <==> exists entry <- Refresh(cfg, gate, now).clients :: entry.client == client
  {
    var g := Refresh(cfg, gate, now);
    RefreshKeepsTable(cfg, gate, last, now);
    if entry :| entry in g.clients && entry.client == client {
      assert entry in gate.clients;
    } else if entry :| entry in gate.clients && entry.client == client {
      assert entry !in Live(gate.clients, now);
    }
  }

  /** What one judged attempt does to the entries of a client. */
  lemma JudgeTouchesOnlyItsClient(cfg: Config, g: Gate, now: real, arriving: string, entry: Entry)
    requires Positive(cfg) && Refreshed(cfg, g, now)
    ensures var (g', answer) := Judge(cfg, g, now, arriving);
            && (!answer.Admitted? ==> g'.clients == g.clients)
            && (entry.client != arriving ==> (entry in g'.clients <==> entry in g.clients))
  {
    var i := IndexOf(g.clients, arriving);
    var g' := Judge(cfg, g, now, arriving).0;
    if i < |g.clients| && g'.clients != g.clients {
      assert forall k :: 0 <= k < |g.clients| && k != i ==> g'.clients[k] == g.clients[k];
    }
  }

  lemma JudgeMatchesTick(cfg: Config, g: Gate, now: real, client: string, c: Counter)
    requires Positive(cfg) && Refreshed(cfg, g, now) && Agrees(g, now, client, c)
    requires now < c.reset <==> exists entry <- g.clients :: entry.client == client
    requires !Judge(cfg, g, now, client).1.GlobalFull? && !Judge(cfg, g, now, client).1.NoRoom?
    ensures var (g', answer) := Judge(cfg, g, now, client);
            var (c', reference) := Tick(cfg.perClient, cfg.windowSeconds, c, now);
            answer.RetryAfter() == reference && Agrees(g', now, client, c')
  {
    var i := IndexOf(g.clients, client);
    var g' := Judge(cfg, g, now, client).0;
    if i < |g.clients| {
      assert g.clients[i] in g.clients;
      if g'.clients != g.clients {
        assert g'.clients[i] in g'.clients;
        assert forall k :: 0 <= k < |g.clients| && k != i ==>
                 g'.clients[k] == g.clients[k] && g.clients[k].client != client;
      }
    } else {
      assert g'.clients[|g.clients|] in g'.clients;
    }
  }

  lemma AttemptAgrees(cfg: Config, gate: Gate, last: real, a: Arrival, client: string, c: Counter)
    requires Positive(cfg) && GateInv(cfg, gate, last) && last <= a.now && Agrees(gate, last, client, c)
    ensures var (g, answer) := Attempt(cfg, gate, a.now, a.client);
            if a.client == client && (answer.Admitted? || answer.ClientFull?) then
              var (c', reference) := Tick(cfg.perClient, cfg.windowSeconds, c, a.now);
              answer.RetryAfter() == reference && Agrees(g, a.now, client, c')
            else
              Agrees(g, a.now, client, c)
  {
    var g := Refresh(cfg, gate, a.now);
    RefreshKeepsTable(cfg, gate, last, a.now);
    RefreshAgrees(cfg, gate, last, a.now, client, c);
    var (g', answer) := Judge(cfg, g, a.now, a.client);
    if a.client == client && (answer.Admitted? || answer.ClientFull?) {
      JudgeMatchesTick(cfg, g, a.now, client, c);
    } else {
      forall entry: Entry | entry.client == client
        ensures entry in g'.clients <==> entry in g.clients
      {
        JudgeTouchesOnlyItsClient(cfg, g, a.now, a.client, entry);
      }
    }
  }

  /** Refinement: whatever the other clients do, a client's quota answers (the admission or the exact
    * Retry-After) are those of a lone fixed-window counter that sees only that client's attempts.
    * Attempts turned away by the global ceiling or by capacity leave its counter alone.
    */
  lemma {:induction false} ClientSeesItsOwnCounter(
      cfg: Config, gate: Gate, last: real, arrivals: seq<Arrival>, client: string, c: Counter)
    requires Positive(cfg) && GateInv(cfg, gate, last) && InOrder(arrivals, last) && Agrees(gate, last, client, c)
    ensures QuotaAnswers(cfg, gate, arrivals, client)
         == Answers(cfg.perClient, cfg.windowSeconds, c, QuotaTimes(cfg, gate, arrivals, client))
    decreases |arrivals|
  {
    if arrivals != [] {
      var a := arrivals[0];
      var (g, answer) := Attempt(cfg, gate, a.now, a.client);
      AttemptAgrees(cfg, gate, last, a, client, c);
      AttemptKeepsInv(cfg, gate, last, a.now, a.client);
      var rest := QuotaTimes(cfg, g, arrivals[1..], client);
      if a.client == client && (answer.Admitted? || answer.ClientFull?) {
        var (c', reference) := Tick(cfg.perClient, cfg.windowSeconds, c, a.now);
        ClientSeesItsOwnCounter(cfg, g, a.now, arrivals[1..], client, c');
        assert ([a.now] + rest)[1..] == rest;
      } else {
        ClientSeesItsOwnCounter(cfg, g, a.now, arrivals[1..], client, c);
        assert [] + rest == rest;
      }
    }
  }

  /** From a fresh limiter the reference counter is fresh too. */
  lemma FreshLimiterRefinesCounters(cfg: Config, arrivals: seq<Arrival>, client: string)
    requires Positive(cfg) && InOrder(arrivals, 0.0)
    ensures QuotaAnswers(cfg, NEW_GATE, arrivals, client)
         == Answers(cfg.perClient, cfg.windowSeconds, Counter(0.0, 0), QuotaTimes(cfg, NEW_GATE, arrivals, client))
  {
    ClientSeesItsOwnCounter(cfg, NEW_GATE, 0.0, arrivals, client, Counter(0.0, 0));
  }

  // Interval bounds

  ghost predicate TimesWithin(times: seq<real>, from: real, to: real) {
    && (forall i :: 0 <= i < |times| ==> from <= times[i] <= to)
    && (forall i, j :: 0 <= i < j < |times| ==> times[i] <= times[j])
  }

  ghost function Windows(k: nat, window: int): real {
    k as real * window as real
  }

  lemma OneMoreWindow(k: nat, window: int)
    ensures Windows(k + 1, window) == Windows(k, window) + window as real
  {}

  lemma OneMoreShare(limit: int, k: nat)
    ensures limit * (k + 1) == limit * k + limit
  {}

  /** Window starts are at least one window apart, so at most k further windows start before the end. */
  lemma {:induction false} RemainingAdmissions(limit: int, window: int, c: Counter, times: seq<real>, from: real,
                                               to: real, k: nat)
    requires 0 < limit && 0 < window && c.count <= limit
    requires TimesWithin(times, from, to) && to < c.reset + Windows(k, window)
    ensures CountAdmitted(Answers(limit, window, c, times)) <= limit - c.count + limit * k
    decreases |times|
  {
    if times == [] {
      assert 0 <= limit * k;
    } else {
      var t := times[0];
      var (next, answer) := Tick(limit, window, c, t);
      var rest := Answers(limit, window, next, times[1..]);
      assert Answers(limit, window, c, times) == [answer] + rest && ([answer] + rest)[1..] == rest;
      if t >= c.reset {
        assert k > 0;
        OneMoreWindow(k - 1, window);
        OneMoreShare(limit, k - 1);
        RemainingAdmissions(limit, window, next, times[1..], t, to, k - 1);
      } else {
        RemainingAdmissions(limit, window, next, times[1..], t, to, k);
      }
    }
  }

  /** In an interval no longer than k windows a counter admits at most limit * (k + 1) times. */
  lemma CounterIntervalBound(limit: int, window: int, c: Counter, times: seq<real>, from: real, to: real, k: nat)
    requires 0 < limit && 0 < window && c.count <= limit
    requires TimesWithin(times, from, to) && to - from <= Windows(k, window)
    ensures CountAdmitted(Answers(limit, window, c, times)) <= limit * (k + 1)
  {
    OneMoreShare(limit, k);
    assert 0 <= limit * k;
    if times != [] {
      if from < c.reset {
        RemainingAdmissions(limit, window, c, times, from, to, k);
      } else {
        var t := times[0];
        var (next, answer) := Tick(limit, window, c, t);
        var rest := Answers(limit, window, next, times[1..]);
        assert Answers(limit, window, c, times) == [answer] + rest && ([answer] + rest)[1..] == rest;
        RemainingAdmissions(limit, window, next, times[1..], t, to, k);
      }
    }
  }

  lemma CeilCovers(length: real, window: int)
    requires 0.0 <= length && 0 < window
    ensures 0 <= Ceil(length / window as real) && length <= Windows(Ceil(length / window as real), window)
  {
    var q := length / window as real;
    assert q * window as real == length;
    assert 0.0 <= q;
    assert q <= Ceil(q) as real;
    Scale(q, Ceil(q) as real, window as real);
  }

  lemma Scale(a: real, b: real, w: real)
    requires a <= b && 0.0 < w
    ensures a * w <= b * w
  {}

  lemma {:induction false} QuotaTimesWithin(cfg: Config, gate: Gate, arrivals: seq<Arrival>, client: string, from: real,
                                            to: real)
    requires Positive(cfg) && InOrder(arrivals, from) && forall a <- arrivals :: a.now <= to
    ensures TimesWithin(QuotaTimes(cfg, gate, arrivals, client), from, to)
    decreases |arrivals|
  {
    if arrivals != [] {
      var a := arrivals[0];
      QuotaTimesWithin(cfg, Attempt(cfg, gate, a.now, a.client).0, arrivals[1..], client, a.now, to);
    }
  }

  lemma {:induction false} AdmittedIsCounted(cfg: Config, gate: Gate, arrivals: seq<Arrival>, client: string)
    requires Positive(cfg)
    ensures AdmittedOf(cfg, gate, arrivals, client) == CountAdmitted(QuotaAnswers(cfg, gate, arrivals, client))
    decreases |arrivals|
  {
    if arrivals != [] {
      var (g, answer) := Attempt(cfg, gate, arrivals[0].now, arrivals[0].client);
      AdmittedIsCounted(cfg, g, arrivals[1..], client);
      var rest := QuotaAnswers(cfg, g, arrivals[1..], client);
      assert ([answer.RetryAfter()] + rest)[1..] == rest && [] + rest == rest;
    }
  }

  /** From any reachable gate, in any interval one client is admitted at most
    * per_client * (ceil(length / window) + 1) times, whatever the other clients do.
    */
  lemma ClientIntervalBound(cfg: Config, gate: Gate, last: real, arrivals: seq<Arrival>, client: string, from: real,
                            to: real)
    requires Positive(cfg) && GateInv(cfg, gate, last) && last <= from <= to
    requires InOrder(arrivals, from) && forall a <- arrivals :: a.now <= to
    ensures AdmittedOf(cfg, gate, arrivals, client)
         <= cfg.perClient * (Ceil((to - from) / cfg.windowSeconds as real) + 1)
  {
    hide QuotaTimes, QuotaAnswers, AdmittedOf, Answers, CountAdmitted;
    var i := IndexOf(gate.clients, client);
    var c := if i < |gate.clients| then Counter(gate.clients[i].reset, gate.clients[i].count) else Counter(last, 0);
    if i < |gate.clients| {
      assert gate.clients[i] in gate.clients && EntryInv(cfg, gate.clients[i], last);
    }
    assert Agrees(gate, last, client, c);
    ClientSeesItsOwnCounter(cfg, gate, last, arrivals, client, c);
    QuotaTimesWithin(cfg, gate, arrivals, client, from, to);
    AdmittedIsCounted(cfg, gate, arrivals, client);
    CeilCovers(to - from, cfg.windowSeconds);
    CounterIntervalBound(cfg.perClient, cfg.windowSeconds, c, QuotaTimes(cfg, gate, arrivals, client), from, to,
                         Ceil((to - from) / cfg.windowSeconds as real));
  }

  function Times(arrivals: seq<Arrival>): seq<real> {
    seq(|arrivals|, i requires 0 <= i < |arrivals| => arrivals[i].now)
  }

  /** The global window is exactly a counter over all attempts. */
  lemma {:induction false} GlobalWindowIsCounter(cfg: Config, gate: Gate, arrivals: seq<Arrival>)
    requires Positive(cfg)
    ensures PassedGlobal(cfg, gate, arrivals)
         == CountAdmitted(Answers(cfg.globalLimit, cfg.windowSeconds, Counter(gate.globalReset, gate.globalCount),
                                  Times(arrivals)))
    decreases |arrivals|
  {
    if arrivals != [] {
      var a := arrivals[0];
      var c := Counter(gate.globalReset, gate.globalCount);
      var (g, answer) := Attempt(cfg, gate, a.now, a.client);
      var (c', reference) := Tick(cfg.globalLimit, cfg.windowSeconds, c, a.now);
      assert c' == Counter(g.globalReset, g.globalCount) && (answer.GlobalFull? <==> reference.Some?);
      GlobalWindowIsCounter(cfg, g, arrivals[1..]);
      assert Times(arrivals)[1..] == Times(arrivals[1..]);
      var rest := Answers(cfg.globalLimit, cfg.windowSeconds, c', Times(arrivals[1..]));
      assert ([reference] + rest)[1..] == rest;
    }
  }

  /** In any interval at most global_limit * (ceil(length / window) + 1) attempts pass the global ceiling. */
  lemma GlobalIntervalBound(cfg: Config, gate: Gate, last: real, arrivals: seq<Arrival>, from: real, to: real)
    requires Positive(cfg) && GateInv(cfg, gate, last) && last <= from <= to
    requires InOrder(arrivals, from) && forall a <- arrivals :: a.now <= to
    ensures PassedGlobal(cfg, gate, arrivals) <= cfg.globalLimit * (Ceil((to - from) / cfg.windowSeconds as real) + 1)
  {
    GlobalWindowIsCounter(cfg, gate, arrivals);
    assert forall a :: 0 <= a < |arrivals| ==> arrivals[a] in arrivals;
    assert TimesWithin(Times(arrivals), from, to);
    CeilCovers(to - from, cfg.windowSeconds);
    CounterIntervalBound(cfg.globalLimit, cfg.windowSeconds, Counter(gate.globalReset, gate.globalCount),
                         Times(arrivals),
                         from, to, Ceil((to - from) / cfg.windowSeconds as real));
  }

  // Bounded work

  /** Items popped from the front over a run. */
  function Pops(cfg: Config, gate: Gate, arrivals: seq<Arrival>): int
    requires Positive(cfg)
    decreases |arrivals|
  {
    if arrivals == [] then 0
    else
      var a := arrivals[0];
      |gate.clients| - |Purge(gate.clients, a.now)| + Pops(cfg, Attempt(cfg, gate, a.now, a.client).0, arrivals[1..])
  }

  /** Client windows opened over a run: admissions of clients without a live entry. */
  function Opened(cfg: Config, gate: Gate, arrivals: seq<Arrival>): nat
    requires Positive(cfg)
    decreases |arrivals|
  {
    if arrivals == [] then 0
    else
      var a := arrivals[0];
      var (g, answer) := Attempt(cfg, gate, a.now, a.client);
      var live := Purge(gate.clients, a.now);
      (if answer.Admitted? && IndexOf(live, a.client) == |live| then 1 else 0) + Opened(cfg, g, arrivals[1..])
  }

  /** Conservation: every entry was opened once and is popped at most once. */
  lemma {:induction false} PopsAreOpened(cfg: Config, gate: Gate, arrivals: seq<Arrival>)
    requires Positive(cfg)
    ensures |gate.clients| + Opened(cfg, gate, arrivals)
         == Pops(cfg, gate, arrivals) + |RunGate(cfg, gate, arrivals).clients|
    decreases |arrivals|
  {
    if arrivals != [] {
      PopsAreOpened(cfg, Attempt(cfg, gate, arrivals[0].now, arrivals[0].client).0, arrivals[1..]);
    }
  }

  lemma TwoAdmissions(cfg: Config)
    requires cfg == Config(1, 2, 10, 2)
    ensures RunGate(cfg, NEW_GATE, [Arrival(0.0, "a"), Arrival(5.0, "c")])
         == Gate([Entry("a", 10.0, 1), Entry("c", 15.0, 1)], 10.0, 2)
  {
    var first := Attempt(cfg, NEW_GATE, 0.0, "a").0;
    assert first == Gate([Entry("a", 10.0, 1)], 10.0, 1);
    assert Attempt(cfg, first, 5.0, "c").0 == Gate([Entry("a", 10.0, 1), Entry("c", 15.0, 1)], 10.0, 2);
    var rest := [Arrival(5.0, "c")];
    assert [Arrival(0.0, "a"), Arrival(5.0, "c")][1..] == rest && rest[1..] == [];
    assert RunGate(cfg, first, rest) == Attempt(cfg, first, 5.0, "c").0;
  }

  /** The bound on rejections in a row is met: a client can wait out a global and then a quota rejection. */
  lemma TwoRejectionsInARow()
    ensures var cfg := Config(1, 2, 10, 2);
            var gate := RunGate(cfg, NEW_GATE, [Arrival(0.0, "a"), Arrival(5.0, "c")]);
            var (g1, v1) := Attempt(cfg, gate, 6.0, "c");
            var (g2, v2) := Attempt(cfg, g1, 10.0, "c");
            v1 == GlobalFull(4) && v2 == ClientFull(5) && Attempt(cfg, g2, 15.0, "c").1 == Admitted
  {
    hide RunGate;
    var cfg := Config(1, 2, 10, 2);
    TwoAdmissions(cfg);
    var gate := Gate([Entry("a", 10.0, 1), Entry("c", 15.0, 1)], 10.0, 2);
    var (g1, v1) := Attempt(cfg, gate, 6.0, "c");
    assert g1 == gate && v1 == GlobalFull(4) by { assert Ceil(4.0) == 4; }
    assert gate.clients[1..] == [Entry("c", 15.0, 1)];
    var (g2, v2) := Attempt(cfg, gate, 10.0, "c");
    assert g2 == Gate([Entry("c", 15.0, 1)], 20.0, 1) && v2 == ClientFull(5) by { assert Ceil(5.0) == 5; }
    assert g2.clients[1..] == [];
  }
}
