/** What the limiter guarantees over whole runs. */
module RateLimiterLaws {
  import opened RateLimiter

  datatype Arrival = Arrival(now: real, client: string)

  /** Arrivals in clock order, none before `from`. */
  ghost predicate InOrder(arrivals: seq<Arrival>, from: real) {
    && (forall i :: 0 <= i < |arrivals| ==> from <= arrivals[i].now)
    && (forall i, j :: 0 <= i < j < |arrivals| ==> arrivals[i].now <= arrivals[j].now)
  }

  function RunGate(cfg: Config, gate: Gate, arrivals: seq<Arrival>): Gate
    requires Positive(cfg)
    decreases |arrivals|
  {
    if arrivals == [] then gate
    else RunGate(cfg, Attempt(cfg, gate, arrivals[0].now, arrivals[0].client).0, arrivals[1..])
  }

  // The invariant of every reachable gate

  ghost predicate EntryInv(cfg: Config, entry: Entry, last: real) {
    && last < entry.reset <= last + cfg.windowSeconds as real
    && 1 <= entry.count <= cfg.perClient
  }

  /** Insertion order is expiry order, and no client has two entries. */
  ghost predicate Ordered(clients: seq<Entry>) {
    forall i, j :: 0 <= i < j < |clients| ==>
      clients[i].client != clients[j].client && clients[i].reset <= clients[j].reset
  }

  /** Facts about the gate at time `last`, before or after an attempt is counted. */
  ghost predicate TableInv(cfg: Config, gate: Gate, last: real) {
    && 0.0 <= last
    && |gate.clients| <= cfg.maxClients
    && gate.globalCount <= cfg.globalLimit
    && gate.globalReset <= last + cfg.windowSeconds as real
    && (forall entry <- gate.clients :: EntryInv(cfg, entry, last))
    && Ordered(gate.clients)
    && (cfg.globalLimit == 1 ==> forall entry <- gate.clients :: entry.reset <= gate.globalReset)
  }

  /** The invariant after every attempt: a live global window has counted something. */
  ghost predicate GateInv(cfg: Config, gate: Gate, last: real) {
    && TableInv(cfg, gate, last)
    && (gate.globalCount == 0 ==> gate.globalReset <= last)
  }

  /** The entries that have not expired, wherever they stand. */
  function Live(clients: seq<Entry>, now: real): seq<Entry> {
    if clients == [] then []
    else (if clients[0].reset > now then [clients[0]] else []) + Live(clients[1..], now)
  }

  lemma {:induction false} AllLive(clients: seq<Entry>, now: real)
    requires forall entry <- clients :: entry.reset > now
    ensures Live(clients, now) == clients
  {
    if clients != [] {
      AllLive(clients[1..], now);
    }
  }

  /** Popping from the front removes exactly the expired entries, because resets are sorted. */
  lemma {:induction false} PurgeDropsExactlyExpired(clients: seq<Entry>, now: real)
    requires Ordered(clients)
    ensures Purge(clients, now) == Live(clients, now)
    ensures |Purge(clients, now)| <= |clients| && Purge(clients, now) == clients[|clients| - |Purge(clients, now)|..]
    ensures forall entry :: entry in Purge(clients, now) <==> entry in clients && entry.reset > now
    ensures Ordered(Purge(clients, now))
  {
    if clients != [] {
      assert clients == [clients[0]] + clients[1..];
      if clients[0].reset > now {
        assert forall entry <- clients :: entry.reset > now;
        AllLive(clients, now);
      } else {
        PurgeDropsExactlyExpired(clients[1..], now);
      }
    }
  }

  lemma DelayInRange(cfg: Config, reset: real, now: real)
    requires Positive(cfg) && now < reset <= now + cfg.windowSeconds as real
    ensures 1 <= Delay(reset, now) <= cfg.windowSeconds
  {}

  /** What refreshing establishes before the attempt is judged. */
  ghost predicate Refreshed(cfg: Config, g: Gate, now: real) {
    && TableInv(cfg, g, now)
    && now < g.globalReset
    && (g.globalCount == 0 ==> g.globalReset == now + cfg.windowSeconds as real)
  }

  lemma RefreshKeepsTable(cfg: Config, gate: Gate, last: real, now: real)
    requires Positive(cfg) && GateInv(cfg, gate, last) && last <= now
    ensures Refreshed(cfg, Refresh(cfg, gate, now), now)
    ensures Refresh(cfg, gate, now).clients == Live(gate.clients, now)
    ensures forall entry :: entry in Live(gate.clients, now) <==> entry in gate.clients && entry.reset > now
  {
    PurgeDropsExactlyExpired(gate.clients, now);
  }

  lemma AddKeepsOrder(clients: seq<Entry>, entry: Entry)
    requires Ordered(clients)
    requires forall other <- clients :: other.client != entry.client && other.reset <= entry.reset
    ensures Ordered(clients + [entry])
  {}

  lemma RecountKeepsOrder(clients: seq<Entry>, i: nat, count: nat)
    requires i < |clients| && Ordered(clients)
    ensures Ordered(clients[i := clients[i].(count := count)])
  {}

  lemma JudgeKeepsTable(cfg: Config, g: Gate, now: real, client: string)
    requires Positive(cfg) && Refreshed(cfg, g, now)
    ensures GateInv(cfg, Judge(cfg, g, now, client).0, now)
  {
    var i := IndexOf(g.clients, client);
    var (g', answer) := Judge(cfg, g, now, client);
    assert forall entry <- g.clients :: EntryInv(cfg, entry, now);
    if answer.Admitted? {
      if i == |g.clients| {
        var entry := Entry(client, now + cfg.windowSeconds as real, 1);
        AddKeepsOrder(g.clients, entry);
        assert g'.clients == g.clients + [entry];
        assert EntryInv(cfg, entry, now);
      } else {
        RecountKeepsOrder(g.clients, i, g.clients[i].count + 1);
        assert EntryInv(cfg, g.clients[i], now);
        assert EntryInv(cfg, g'.clients[i], now);
        assert forall entry <- g'.clients :: entry in g.clients || entry == g'.clients[i];
      }
    }
  }

  lemma JudgeDelayBounded(cfg: Config, g: Gate, now: real, client: string)
    requires Positive(cfg) && Refreshed(cfg, g, now)
    ensures var answer := Judge(cfg, g, now, client).1;
            answer.RetryAfter().Some? ==> 1 <= answer.seconds <= cfg.windowSeconds
  {
    var i := IndexOf(g.clients, client);
    DelayInRange(cfg, g.globalReset, now);
    if g.clients != [] {
      var blocking := if i == |g.clients| then g.clients[0] else g.clients[i];
      assert EntryInv(cfg, blocking, now);
      DelayInRange(cfg, blocking.reset, now);
    }
  }

  /** Every reachable gate satisfies the invariant, and every Retry-After lies between 1 and the window. */
  lemma AttemptKeepsInv(cfg: Config, gate: Gate, last: real, now: real, client: string)
    requires Positive(cfg) && GateInv(cfg, gate, last) && last <= now
    ensures GateInv(cfg, Attempt(cfg, gate, now, client).0, now)
    ensures var answer := Attempt(cfg, gate, now, client).1;
            answer.RetryAfter().Some? ==> 1 <= answer.seconds <= cfg.windowSeconds
  {
    var g := Refresh(cfg, gate, now);
    RefreshKeepsTable(cfg, gate, last, now);
    JudgeKeepsTable(cfg, g, now, client);
    JudgeDelayBounded(cfg, g, now, client);
  }

  lemma {:induction false} RunKeepsInv(cfg: Config, gate: Gate, last: real, arrivals: seq<Arrival>)
    requires Positive(cfg) && GateInv(cfg, gate, last) && InOrder(arrivals, last)
    ensures GateInv(cfg, RunGate(cfg, gate, arrivals), if arrivals == [] then last else arrivals[|arrivals| - 1].now)
    decreases |arrivals|
  {
    if arrivals != [] {
      var a := arrivals[0];
      AttemptKeepsInv(cfg, gate, last, a.now, a.client);
      RunKeepsInv(cfg, Attempt(cfg, gate, a.now, a.client).0, a.now, arrivals[1..]);
    }
  }

  // Liveness of a lone client

  /** The client has no live entry and there is room for one. */
  ghost predicate Open(cfg: Config, gate: Gate, now: real, client: string) {
    var live := Purge(gate.clients, now);
    |live| < cfg.maxClients && forall entry <- live :: entry.client != client
  }

  lemma DelayCovers(reset: real, now: real)
    ensures reset <= now + Delay(reset, now) as real
  {
    var x := reset - now;
    assert (-x).Floor as real <= -x;
  }

  /** Waiting out a global rejection always gets past the global ceiling the next time. */
  lemma GlobalRejectionPasses(cfg: Config, gate: Gate, now: real, client: string, next: real)
    requires Positive(cfg)
    requires Attempt(cfg, gate, now, client).1.GlobalFull?
    requires next >= now + Attempt(cfg, gate, now, client).1.seconds as real
    ensures var g := Attempt(cfg, gate, now, client).0;
            g.globalReset <= next && !Attempt(cfg, g, next, client).1.GlobalFull?
  {
    DelayCovers(Refresh(cfg, gate, now).globalReset, now);
  }

  lemma JudgedRejectionOpens(cfg: Config, g: Gate, now: real, client: string, next: real)
    requires Positive(cfg) && Refreshed(cfg, g, now)
    requires var answer := Judge(cfg, g, now, client).1;
             (answer.NoRoom? || answer.ClientFull?) && next >= now + answer.seconds as real
    ensures Open(cfg, g, next, client)
  {
    PurgeDropsExactlyExpired(g.clients, next);
    var i := IndexOf(g.clients, client);
    var blocking := if i == |g.clients| then g.clients[0] else g.clients[i];
    DelayCovers(blocking.reset, now);
    assert blocking in g.clients && blocking !in Purge(g.clients, next);
    assert Purge(g.clients, next) != g.clients;
  }

  /** Waiting out a capacity or quota rejection leaves room for the client. */
  lemma OtherRejectionOpens(cfg: Config, gate: Gate, last: real, now: real, client: string, next: real)
    requires Positive(cfg) && GateInv(cfg, gate, last) && last <= now
    requires var answer := Attempt(cfg, gate, now, client).1;
             (answer.NoRoom? || answer.ClientFull?) && next >= now + answer.seconds as real
    ensures Open(cfg, Attempt(cfg, gate, now, client).0, next, client)
  {
    hide Purge, Delay, Live, Refresh, GateInv, Refreshed, IndexOf;
    RefreshKeepsTable(cfg, gate, last, now);
    JudgedRejectionOpens(cfg, Refresh(cfg, gate, now), now, client, next);
  }

  /** An open client is only ever turned away by the global ceiling, and then stays open. */
  lemma OpenStaysOpen(cfg: Config, gate: Gate, last: real, now: real, client: string, next: real)
    requires Positive(cfg) && GateInv(cfg, gate, last) && last <= now <= next
    requires Open(cfg, gate, now, client)
    ensures var (g, answer) := Attempt(cfg, gate, now, client);
            answer.Admitted? || (answer.GlobalFull? && Open(cfg, g, next, client))
  {
    var g := Refresh(cfg, gate, now);
    RefreshKeepsTable(cfg, gate, last, now);
    PurgeDropsExactlyExpired(g.clients, next);
  }

  /** With a global limit of one, every entry expires with the global window it was made in. */
  lemma SingleGlobalSlotOpens(cfg: Config, gate: Gate, last: real, now: real, client: string)
    requires Positive(cfg) && GateInv(cfg, gate, last) && last <= now
    requires cfg.globalLimit == 1 && gate.globalReset <= now
    ensures Attempt(cfg, gate, now, client).1.Admitted?
  {
    PurgeDropsExactlyExpired(gate.clients, now);
  }

  /** Bounded liveness: from any reachable gate, a client that waits at least the returned Retry-After
    * each time, with no other traffic, is rejected at most twice in a row.
    */
  lemma ThirdAttemptAdmitted(cfg: Config, gate: Gate, last: real, client: string, t1: real, t2: real, t3: real)
    requires Positive(cfg) && GateInv(cfg, gate, last) && last <= t1 <= t2 <= t3
    ensures var (g1, v1) := Attempt(cfg, gate, t1, client);
            var (g2, v2) := Attempt(cfg, g1, t2, client);
            var (g3, v3) := Attempt(cfg, g2, t3, client);
            && !v1.Admitted? && t1 + v1.seconds as real <= t2
            && !v2.Admitted? && t2 + v2.seconds as real <= t3
            ==> v3.Admitted?
  {
    var (g1, v1) := Attempt(cfg, gate, t1, client);
    var (g2, v2) := Attempt(cfg, g1, t2, client);
    if && !v1.Admitted? && t1 + v1.seconds as real <= t2
       && !v2.Admitted? && t2 + v2.seconds as real <= t3
    {
      AttemptKeepsInv(cfg, gate, last, t1, client);
      AttemptKeepsInv(cfg, g1, t1, t2, client);
      if v1.GlobalFull? {
        GlobalRejectionPasses(cfg, gate, t1, client, t2);
        if cfg.globalLimit == 1 {
          SingleGlobalSlotOpens(cfg, g1, t1, t2, client);
        } else {
          OtherRejectionOpens(cfg, g1, t1, t2, client, t3);
          assert g2.globalCount == 1;
          OpenStaysOpen(cfg, g2, t2, t3, client, t3);
        }
      } else {
        OtherRejectionOpens(cfg, gate, last, t1, client, t2);
        OpenStaysOpen(cfg, g1, t1, t2, client, t3);
        GlobalRejectionPasses(cfg, g1, t2, client, t3);
        OpenStaysOpen(cfg, g2, t2, t3, client, t3);
      }
    }
  }
}
