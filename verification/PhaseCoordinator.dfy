/** The coordinator object itself, proved to take the steps of `Coordinator`. */
module PhaseCoordinator {
  import opened Coordinator

  class LocalAttemptPhaseCoordinator {
    var activeAgents: int
    var privateActive: bool
    var waitingAgents: seq<Ticket>
    var waitingPrivate: seq<Ticket>
    var spent: map<Ticket, bool>

    function State(): Coord
      reads this
    {
      Coord(activeAgents, privateActive, waitingAgents, waitingPrivate, spent)
    }

    ghost predicate Valid()
      reads this
    {
      Inv(State())
    }

    constructor ()
      ensures Valid() && State() == IDLE
    {
      activeAgents, privateActive, waitingAgents, waitingPrivate, spent := 0, false, [], [], map[];
      new;
      assert Holders(State(), Agent) == {} && Holders(State(), Private) == {};
    }

    /** Returns at once when `admitted`; otherwise the call waits in its queue. */
    method EnterAgent(t: Ticket) returns (admitted: bool)
      requires Valid() && !Known(State(), t) && t.phase == Agent
      modifies this
      ensures Valid() && State() == Enter(old(State()), t)
      ensures admitted == (t in spent)
    {
      EnterKeepsInv(State(), t);
      if !privateActive && |waitingPrivate| == 0 {
        activeAgents := activeAgents + 1;
        spent := spent[t := false];
        return true;
      }
      waitingAgents := waitingAgents + [t];
      return false;
    }

    method EnterPrivate(t: Ticket) returns (admitted: bool)
      requires Valid() && !Known(State(), t) && t.phase == Private
      modifies this
      ensures Valid() && State() == Enter(old(State()), t)
      ensures admitted == (t in spent)
    {
      EnterKeepsInv(State(), t);
      if !privateActive && activeAgents == 0 {
        privateActive := true;
        spent := spent[t := false];
        return true;
      }
      waitingPrivate := waitingPrivate + [t];
      return false;
    }

    /** The closure returned for `t`: its own flag makes a second call do nothing. */
    method CallRelease(t: Ticket)
      requires Valid() && t in spent
      modifies this
      ensures Valid() && State() == Release(old(State()), t)
    {
      ReleaseKeepsInv(State(), t);
      if spent[t] {
        return;
      }
      spent := spent[t := true];
      if t.phase == Agent {
        activeAgents := activeAgents - 1;
      } else {
        privateActive := false;
      }
      DrainQueues();
    }

    method DrainQueues()
      modifies this
      ensures State() == Drain(old(State()))
    {
      if privateActive || activeAgents > 0 {
        return;
      }
      if waitingPrivate != [] {
        var next := waitingPrivate[0];
        waitingPrivate := waitingPrivate[1..];
        privateActive := true;
        spent := spent[next := false];
        return;
      }
      var agents := waitingAgents;
      waitingAgents := [];
      AdmitAgents(agents);
    }

    /** Resolves every queued agent in turn. */
    method AdmitAgents(agents: seq<Ticket>)
      modifies `activeAgents, `spent
      ensures activeAgents == old(activeAgents) + |agents|
      ensures spent == Admit(old(spent), agents)
    {
      for i := 0 to |agents|
        invariant activeAgents == old(activeAgents) + i
        invariant spent == Admit(old(spent), agents[..i])
      {
        AdmitNext(old(spent), agents, i);
        activeAgents := activeAgents + 1;
        spent := spent[agents[i] := false];
      }
      assert agents[..|agents|] == agents;
    }
  }
}
