/** Bounded fixed-window admission (app/rate_limit.py). The clock is a non-decreasing real. */
module RateLimiter {
  import opened Wrappers

  datatype Config = Config(perClient: int, globalLimit: int, windowSeconds: int, maxClients: int)

  predicate Positive(cfg: Config) {
    cfg.perClient > 0 && cfg.globalLimit > 0 && cfg.windowSeconds > 0 && cfg.maxClients > 0
  }

  /** One item of the ordered dictionary: a client and its window. */
  datatype Entry = Entry(client: string, reset: real, count: nat)

  datatype Gate = Gate(clients: seq<Entry>, globalReset: real, globalCount: nat)

  const NEW_GATE := Gate([], 0.0, 0)

  /** The answer to one attempt. Rejections carry the Retry-After value (RFC 9110, section 10.2.3). */
  datatype Verdict =
    | Admitted
    | GlobalFull(seconds: int)
    | NoRoom(seconds: int)
    | ClientFull(seconds: int)
  {
    function RetryAfter(): Option<int> {
      if Admitted? then None else Some(seconds)
    }
  }

  function Ceil(x: real): int {
    -(-x).Floor
  }

  /** `max(1, math.ceil(reset - now))` */
  function Delay(reset: real, now: real): int {
    if Ceil(reset - now) < 1 then 1 else Ceil(reset - now)
  }

  /** Pops expired items from the front, stopping at the first live one. */
  function Purge(clients: seq<Entry>, now: real): seq<Entry> {
    if clients == [] || clients[0].reset > now then clients else Purge(clients[1..], now)
  }

  /** Position of a client's item, or the length if it has none. */
  function IndexOf(clients: seq<Entry>, client: string): (i: nat)
    ensures i <= |clients|
    ensures i < |clients| ==> clients[i].client == client
    ensures forall k :: 0 <= k < i ==> clients[k].client != client
  {
    if clients == [] || clients[0].client == client then 0 else 1 + IndexOf(clients[1..], client)
  }

  /** The gate after expired items are dropped and an expired global window is restarted. */
  function Refresh(cfg: Config, gate: Gate, now: real): Gate {
    var clients := Purge(gate.clients, now);
    if now >= gate.globalReset then Gate(clients, now + cfg.windowSeconds as real, 0) else gate.(clients := clients)
  }

  /** The decision on a refreshed gate: global ceiling, capacity, client quota. */
  function Judge(cfg: Config, g: Gate, now: real, client: string): (Gate, Verdict)
    requires Positive(cfg)
  {
    if g.globalCount >= cfg.globalLimit then (g, GlobalFull(Delay(g.globalReset, now)))
    else
      var counted := g.(globalCount := g.globalCount + 1);
      var i := IndexOf(g.clients, client);
      if i == |g.clients| then
        if |g.clients| >= cfg.maxClients then (counted, NoRoom(Delay(g.clients[0].reset, now)))
        else (counted.(clients := g.clients + [Entry(client, now + cfg.windowSeconds as real, 1)]), Admitted)
      else if g.clients[i].count >= cfg.perClient then (counted, ClientFull(Delay(g.clients[i].reset, now)))
      else (counted.(clients := g.clients[i := g.clients[i].(count := g.clients[i].count + 1)]), Admitted)
  }

  /** One attempt at time `now`. */
  function Attempt(cfg: Config, gate: Gate, now: real, client: string): (Gate, Verdict)
    requires Positive(cfg)
  {
    Judge(cfg, Refresh(cfg, gate, now), now, client)
  }

  class AgentRequestLimiter {
    const cfg: Config
    var clients: seq<Entry>
    var globalReset: real
    var globalCount: nat

    function State(): Gate
      reads this
    {
      Gate(clients, globalReset, globalCount)
    }

    constructor (cfg: Config)
      requires Positive(cfg)
      ensures this.cfg == cfg && State() == NEW_GATE
    {
      this.cfg := cfg;
      clients, globalReset, globalCount := [], 0.0, 0;
    }

    /** Construction as callers see it: a non-positive setting is an error. */
    static method Create(cfg: Config) returns (limiter: Result<AgentRequestLimiter, string>)
      ensures limiter.Success? <==> Positive(cfg)
      ensures limiter.Success? ==> fresh(limiter.value) && limiter.value.cfg == cfg && limiter.value.State() == NEW_GATE
    {
      if cfg.perClient <= 0 || cfg.globalLimit <= 0 || cfg.windowSeconds <= 0 || cfg.maxClients <= 0 {
        return Failure("Agent rate limits, window, and client capacity must be positive");
      }
      var created := new AgentRequestLimiter(cfg);
      return Success(created);
    }

    method Admit(now: real, client: string) returns (retryAfter: Option<int>)
      requires Positive(cfg)
      modifies this
      ensures State() == Attempt(cfg, old(State()), now, client).0
      ensures retryAfter == Attempt(cfg, old(State()), now, client).1.RetryAfter()
    {
      while clients != []
        invariant Purge(clients, now) == Purge(old(clients), now)
        invariant globalReset == old(globalReset) && globalCount == old(globalCount)
        decreases |clients|
      {
        if clients[0].reset > now {
          break;
        }
        clients := clients[1..];
      }
      if now >= globalReset {
        globalReset := now + cfg.windowSeconds as real;
        globalCount := 0;
      }
      if globalCount >= cfg.globalLimit {
        return Some(Delay(globalReset, now));
      }
      globalCount := globalCount + 1;
      var i := IndexOf(clients, client);
      var reset, count := now + cfg.windowSeconds as real, 0;
      if i == |clients| {
        if |clients| >= cfg.maxClients {
          return Some(Delay(clients[0].reset, now));
        }
      } else {
        reset, count := clients[i].reset, clients[i].count;
      }
      if count >= cfg.perClient {
        return Some(Delay(reset, now));
      }
      if i == |clients| {
        clients := clients + [Entry(client, reset, count + 1)];
      } else {
        clients := clients[i := Entry(client, reset, count + 1)];
      }
      return None;
    }
  }
}
