/** Requests that fail authentication leave no trace outside the evidence log. */
module Erasure {
  import opened Canonical
  import opened EvidenceLog
  import opened Operations
  import opened Runs
  import opened LogIndependence

  /** The run without the steps that were rejected for failed authentication. */
  function Erase(verify: Verifier, s: System, steps: seq<Step>): seq<Step>
    decreases |steps|
  {
    if steps == [] then []
    else
      var (next, reply) := Apply(verify, s, steps[0]);
      (if reply.Unauthenticated? then [] else [steps[0]]) + Erase(verify, next, steps[1..])
  }

  function Accepted(replies: seq<Reply>): seq<Reply> {
    if replies == [] then []
    else (if replies[0].Unauthenticated? then [] else [replies[0]]) + Accepted(replies[1..])
  }

  lemma {:induction false} ErasedRunTwins(verify: Verifier, s: System, clean: System, steps: seq<Step>)
    requires Twins(Rejections, s, clean) && Legal(verify, s, steps)
    ensures var kept := Erase(verify, s, steps);
            && Legal(verify, clean, kept)
            && Replies(verify, clean, kept) == Accepted(Replies(verify, s, steps))
            && Twins(Rejections, Run(verify, s, steps), Run(verify, clean, kept))
    decreases |steps|
  {
    if steps != [] {
      var (next, reply) := Apply(verify, s, steps[0]);
      StepTwins(verify, Rejections, s, clean, steps[0]);
      assert Admissible(clean, steps[0]);
      var rest := Erase(verify, next, steps[1..]);
      var replies := Replies(verify, next, steps[1..]);
      assert Replies(verify, s, steps) == [reply] + replies && ([reply] + replies)[1..] == replies;
      if reply.Unauthenticated? {
        ErasedRunTwins(verify, next, clean, steps[1..]);
        assert Erase(verify, s, steps) == rest;
      } else {
        ErasedRunTwins(verify, next, Apply(verify, clean, steps[0]).0, steps[1..]);
        assert Erase(verify, s, steps) == [steps[0]] + rest && ([steps[0]] + rest)[1..] == rest;
      }
    }
  }

  /** Erasure: deleting every unauthenticated request from a run leaves a legal run with the same answers to all
    * other steps, the same tables and the same pending work; its evidence is the old evidence without the rejections.
    */
  lemma ForgedRequestsLeaveNoTrace(verify: Verifier, steps: seq<Step>)
    requires Legal(verify, START, steps)
    ensures var kept := Erase(verify, START, steps);
            var s, clean := Run(verify, START, steps), Run(verify, START, kept);
            && Legal(verify, START, kept)
            && Replies(verify, START, kept) == Accepted(Replies(verify, START, steps))
            && clean.pending == s.pending && clean.db == s.db.(log := clean.db.log)
            && forall a :: History(clean.db.log, a) == Without(History(s.db.log, a), AgentRequestRejected)
  {
    ErasedRunTwins(verify, START, START, steps);
  }
}
