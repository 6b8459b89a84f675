/** The limiter's answer to every attempt, exactly, over the entries that are live. */
module RateLimiterAnswers {
  import opened RateLimiter
  import opened RateLimiterLaws

  /** The least whole number of seconds, and at least one, that covers the time still to wait. */
  ghost predicate LeastWait(seconds: int, wait: real) {
    1 <= seconds && wait <= seconds as real && (seconds == 1 || (seconds - 1) as real < wait)
  }

  lemma DelayIsLeast(reset: real, now: real)
    ensures LeastWait(Delay(reset, now), reset - now)
  {}

  /** The client has a window that is still running; distinct clients make it the only one. */
  ghost predicate Running(entries: seq<Entry>, client: string, i: int) {
    0 <= i < |entries| && entries[i].client == client
  }

  ghost predicate Unknown(entries: seq<Entry>, client: string) {
    forall i :: 0 <= i < |entries| ==> entries[i].client != client
  }

  /** The ceiling when the attempt is made: an expired window has been restarted. */
  function CeilingReset(cfg: Config, gate: Gate, now: real): real {
    if now >= gate.globalReset then now + cfg.windowSeconds as real else gate.globalReset
  }

  function CeilingCount(gate: Gate, now: real): nat {
    if now >= gate.globalReset then 0 else gate.globalCount
  }

  /** The judgement on a refreshed gate. */
  lemma JudgedExactly(cfg: Config, g: Gate, now: real, client: string)
    requires Positive(cfg) && Refreshed(cfg, g, now)
    ensures var answer := Judge(cfg, g, now, client).1;
            var full := g.globalCount >= cfg.globalLimit;
            && (answer.GlobalFull? <==> full)
            && (answer.NoRoom? <==> !full && Unknown(g.clients, client) && |g.clients| == cfg.maxClients)
            && (answer.ClientFull? <==>
                !full && exists i :: Running(g.clients, client, i) && g.clients[i].count == cfg.perClient)
            && (answer.Admitted? <==>
                && !full
                && ((Unknown(g.clients, client) && |g.clients| < cfg.maxClients)
                    || exists i :: Running(g.clients, client, i) && g.clients[i].count < cfg.perClient))
            && (answer.GlobalFull? ==> LeastWait(answer.seconds, g.globalReset - now))
            && (answer.NoRoom? ==> LeastWait(answer.seconds, g.clients[0].reset - now))
            && (answer.ClientFull? ==>
                  forall i :: Running(g.clients, client, i) ==> LeastWait(answer.seconds, g.clients[i].reset - now))
  {
    hide Delay, LeastWait;
    var i := IndexOf(g.clients, client);
    if i < |g.clients| {
      assert Running(g.clients, client, i) && g.clients[i] in g.clients && EntryInv(cfg, g.clients[i], now);
      RunningIsUnique(g.clients, client, i);
      DelayIsLeast(g.clients[i].reset, now);
    } else if |g.clients| > 0 {
      DelayIsLeast(g.clients[0].reset, now);
    }
    DelayIsLeast(g.globalReset, now);
  }

  lemma RunningIsUnique(entries: seq<Entry>, client: string, i: int)
    requires Ordered(entries) && Running(entries, client, i)
    ensures forall j :: Running(entries, client, j) ==> j == i
    ensures !Unknown(entries, client)
  {
    forall j | Running(entries, client, j)
      ensures j == i
    {
      assert !(i < j) && !(j < i);
    }
  }

  /** What the judgement leaves behind. */
  lemma JudgedLeaves(cfg: Config, g: Gate, now: real, client: string)
    requires Positive(cfg) && Refreshed(cfg, g, now)
    ensures var (g', answer) := Judge(cfg, g, now, client);
            && g'.globalReset == g.globalReset
            && g'.globalCount == (if answer.GlobalFull? then g.globalCount else g.globalCount + 1)
            && (!answer.Admitted? ==> g'.clients == g.clients)
            && (answer.Admitted? && Unknown(g.clients, client) ==>
                  g'.clients == g.clients + [Entry(client, now + cfg.windowSeconds as real, 1)])
            && (answer.Admitted? ==>
                  forall i :: Running(g.clients, client, i) ==>
                    g'.clients == g.clients[i := Entry(client, g.clients[i].reset, g.clients[i].count + 1)])
  {
    hide Delay;
    var i := IndexOf(g.clients, client);
    if i < |g.clients| {
      RunningIsUnique(g.clients, client, i);
    }
  }

  /** Every answer, exactly, from every reachable gate. The global ceiling comes first; an unknown client is turned away
    * for want of room exactly when the live entries fill the table, and a known one exactly when its quota is used up;
    * the delay is the least that covers the window which turned it away, for want of room that of the oldest live
    * entry.
    */
  lemma AnsweredExactly(cfg: Config, gate: Gate, last: real, now: real, client: string)
    requires Positive(cfg) && GateInv(cfg, gate, last) && last <= now
    ensures var answer := Attempt(cfg, gate, now, client).1;
            var live, full := Live(gate.clients, now), CeilingCount(gate, now) >= cfg.globalLimit;
            && (answer.GlobalFull? <==> full)
            && (answer.NoRoom? <==> !full && Unknown(live, client) && |live| == cfg.maxClients)
            && (answer.ClientFull? <==> !full && exists i :: Running(live, client, i) && live[i].count == cfg.perClient)
            && (answer.Admitted? <==>
                && !full
                && ((Unknown(live, client) && |live| < cfg.maxClients)
                    || exists i :: Running(live, client, i) && live[i].count < cfg.perClient))
            && (answer.GlobalFull? ==> LeastWait(answer.seconds, CeilingReset(cfg, gate, now) - now))
            && (answer.NoRoom? ==> LeastWait(answer.seconds, live[0].reset - now))
            && (answer.ClientFull? ==>
                  forall i :: Running(live, client, i) ==> LeastWait(answer.seconds, live[i].reset - now))
  {
    hide Judge, Purge, Live, LeastWait, Refreshed, GateInv;
    RefreshKeepsTable(cfg, gate, last, now);
    JudgedExactly(cfg, Refresh(cfg, gate, now), now, client);
  }

  /** What every attempt leaves behind, exactly. */
  lemma LeftExactly(cfg: Config, gate: Gate, last: real, now: real, client: string)
    requires Positive(cfg) && GateInv(cfg, gate, last) && last <= now
    ensures var (gate', answer) := Attempt(cfg, gate, now, client);
            var live := Live(gate.clients, now);
            && gate'.globalReset == CeilingReset(cfg, gate, now)
            && gate'.globalCount == CeilingCount(gate, now) + (if answer.GlobalFull? then 0 else 1)
            && (!answer.Admitted? ==> gate'.clients == live)
            && (answer.Admitted? && Unknown(live, client) ==>
                  gate'.clients == live + [Entry(client, now + cfg.windowSeconds as real, 1)])
            && (answer.Admitted? ==>
                  forall i :: Running(live, client, i) ==>
                    gate'.clients == live[i := Entry(client, live[i].reset, live[i].count + 1)])
  {
    hide Judge, Purge, Live, Refreshed, GateInv;
    RefreshKeepsTable(cfg, gate, last, now);
    JudgedLeaves(cfg, Refresh(cfg, gate, now), now, client);
  }
}
