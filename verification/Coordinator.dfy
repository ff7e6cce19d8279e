/**
 The attempt phase coordinator: any number of agent phases or one private phase, never both.
 Waiting private phases go first; a release admits the next private phase or every waiting agent.
 */
module Coordinator {

  datatype Phase = Agent | Private

  /** One call of `enterAgent` or `enterPrivate`. */
  datatype Ticket = Ticket(caller: nat, phase: Phase)

  /** `released` of the closure handed to each admitted call is `spent[ticket]`. */
  datatype Coord = Coord(activeAgents: int, privateActive: bool,
                         waitingAgents: seq<Ticket>, waitingPrivate: seq<Ticket>, spent: map<Ticket, bool>)

  const IDLE: Coord := Coord(0, false, [], [], map[])

  predicate Known(c: Coord, t: Ticket) {
    t in c.spent || t in c.waitingAgents || t in c.waitingPrivate
  }

  function Admit(spent: map<Ticket, bool>, ts: seq<Ticket>): map<Ticket, bool> {
    spent + map t | t in ts :: false
  }

  function Enter(c: Coord, t: Ticket): Coord {
    match t.phase
    case Agent =>
      if !c.privateActive && |c.waitingPrivate| == 0
      then c.(activeAgents := c.activeAgents + 1, spent := c.spent[t := false])
      else c.(waitingAgents := c.waitingAgents + [t])
    case Private =>
      if !c.privateActive && c.activeAgents == 0
      then c.(privateActive := true, spent := c.spent[t := false])
      else c.(waitingPrivate := c.waitingPrivate + [t])
  }

  function Drain(c: Coord): Coord {
    if c.privateActive || c.activeAgents > 0 then c
    else if c.waitingPrivate != [] then
      c.(waitingPrivate := c.waitingPrivate[1..], privateActive := true,
         spent := c.spent[c.waitingPrivate[0] := false])
    else c.(waitingAgents := [], activeAgents := c.activeAgents + |c.waitingAgents|,
            spent := Admit(c.spent, c.waitingAgents))
  }

  /** Whether calling this ticket's release would do anything. */
  predicate Effective(c: Coord, t: Ticket) {
    t in c.spent && !c.spent[t]
  }

  function Release(c: Coord, t: Ticket): Coord {
    if !Effective(c, t) then c
    else
      var d := c.(spent := c.spent[t := true]);
      Drain(if t.phase == Agent then d.(activeAgents := d.activeAgents - 1) else d.(privateActive := false))
  }

  /******* What every call keeps *******/

  ghost function Holders(c: Coord, p: Phase): set<Ticket> {
    set t | t in c.spent && !c.spent[t] && t.phase == p
  }

  ghost predicate Distinct(ts: seq<Ticket>) {
    forall i, j | 0 <= i < j < |ts| :: ts[i] != ts[j]
  }

  ghost predicate Queue(c: Coord, ts: seq<Ticket>, p: Phase) {
    Distinct(ts) && forall t | t in ts :: t.phase == p && t !in c.spent
  }

  ghost predicate Inv(c: Coord) {
    && c.activeAgents == |Holders(c, Agent)|
    && |Holders(c, Private)| == (if c.privateActive then 1 else 0)
    && (c.privateActive ==> c.activeAgents == 0)
    && Queue(c, c.waitingAgents, Agent) && Queue(c, c.waitingPrivate, Private)
    && (c.waitingPrivate != [] ==> c.privateActive || c.activeAgents > 0)
    && (c.waitingAgents != [] ==> c.privateActive || c.waitingPrivate != [])
  }

  lemma HoldersAdmit(c: Coord, d: Coord, t: Ticket)
    requires t !in c.spent && d.spent == c.spent[t := false]
    ensures forall p :: Holders(d, p) == if p == t.phase then Holders(c, p) + {t} else Holders(c, p)
  {
  }

  lemma AdmitPrivateHolders(c: Coord, d: Coord, ts: seq<Ticket>)
    requires Queue(c, ts, Agent) && d.spent == Admit(c.spent, ts)
    ensures Holders(d, Private) == Holders(c, Private)
  {
    forall t ensures t in Holders(d, Private) <==> t in Holders(c, Private) {
      assert t in ts ==> t.phase == Agent;
    }
  }

  lemma AdmitAgentHolders(c: Coord, d: Coord, ts: seq<Ticket>, admitted: set<Ticket>)
    requires Queue(c, ts, Agent) && d.spent == Admit(c.spent, ts)
    requires forall t :: t in admitted <==> t in ts
    ensures Holders(d, Agent) == Holders(c, Agent) + admitted && Holders(c, Agent) !! admitted
  {
    forall t ensures t in Holders(d, Agent) <==> t in Holders(c, Agent) || t in admitted {
      assert t in ts ==> t.phase == Agent && t !in c.spent;
    }
  }

  lemma {:induction false} HoldersAdmitAll(c: Coord, d: Coord, ts: seq<Ticket>)
    requires Queue(c, ts, Agent) && d.spent == Admit(c.spent, ts)
    ensures Holders(d, Private) == Holders(c, Private)
    ensures |Holders(d, Agent)| == |Holders(c, Agent)| + |ts|
  {
    var admitted := set t | t in ts;
    AdmitPrivateHolders(c, d, ts);
    AdmitAgentHolders(c, d, ts, admitted);
    DistinctSize(ts);
  }

  lemma AdmitNext(spent: map<Ticket, bool>, ts: seq<Ticket>, i: nat)
    requires i < |ts|
    ensures Admit(spent, ts[..i])[ts[i] := false] == Admit(spent, ts[..i + 1])
  {
    assert ts[..i + 1] == ts[..i] + [ts[i]];
  }

  lemma {:induction false} DistinctSize(ts: seq<Ticket>)
    requires Distinct(ts)
    ensures |set t | t in ts| == |ts|
  {
    if ts != [] {
      var last := ts[|ts| - 1];
      var init := ts[..|ts| - 1];
      DistinctSize(init);
      assert (set t | t in ts) == (set t | t in init) + {last};
      assert last !in init;
    }
  }

  lemma HoldersSpend(c: Coord, d: Coord, t: Ticket)
    requires Effective(c, t) && d.spent == c.spent[t := true]
    ensures t in Holders(c, t.phase)
    ensures forall p :: Holders(d, p) == if p == t.phase then Holders(c, p) - {t} else Holders(c, p)
  {
  }

  lemma QueueAppend(c: Coord, d: Coord, ts: seq<Ticket>, t: Ticket)
    requires Queue(c, ts, t.phase) && t !in ts && t !in c.spent && d.spent == c.spent
    ensures Queue(d, ts + [t], t.phase)
  {
  }

  lemma EnterKeepsInv(c: Coord, t: Ticket)
    requires Inv(c) && !Known(c, t)
    ensures Inv(Enter(c, t))
  {
    var d := Enter(c, t);
    if d.spent != c.spent {
      HoldersAdmit(c, d, t);
      assert t !in Holders(c, t.phase);
    } else {
      assert Holders(d, Agent) == Holders(c, Agent) && Holders(d, Private) == Holders(c, Private);
      QueueAppend(c, d, if t.phase == Agent then c.waitingAgents else c.waitingPrivate, t);
    }
  }

  lemma DrainKeepsInv(c: Coord)
    requires c.activeAgents == |Holders(c, Agent)|
    requires |Holders(c, Private)| == (if c.privateActive then 1 else 0)
    requires c.privateActive ==> c.activeAgents == 0
    requires Queue(c, c.waitingAgents, Agent) && Queue(c, c.waitingPrivate, Private)
    requires c.waitingAgents != [] && c.activeAgents > 0 ==> c.waitingPrivate != []
    ensures Inv(Drain(c))
  {
    var d := Drain(c);
    if c.privateActive || c.activeAgents > 0 {
    } else if c.waitingPrivate != [] {
      var t := c.waitingPrivate[0];
      HoldersAdmit(c, d, t);
      assert forall u | u in d.waitingPrivate :: u in c.waitingPrivate && u != t;
    } else {
      HoldersAdmitAll(c, d, c.waitingAgents);
    }
  }

  lemma ReleaseKeepsInv(c: Coord, t: Ticket)
    requires Inv(c)
    ensures Inv(Release(c, t))
  {
    if Effective(c, t) {
      var d := c.(spent := c.spent[t := true]);
      var e := if t.phase == Agent then d.(activeAgents := d.activeAgents - 1) else d.(privateActive := false);
      HoldersSpend(c, e, t);
      DrainKeepsInv(e);
    }
  }

  /** No agent phase overlaps a private phase, and there is at most one private phase. */
  lemma MutualExclusion(c: Coord, t: Ticket, u: Ticket)
    requires Inv(c) && Effective(c, t) && Effective(c, u) && t != u
    ensures t.phase == Agent && u.phase == Agent
  {
    assert t in Holders(c, t.phase) && u in Holders(c, u.phase);
    if t.phase == Private && u.phase == Private {
      assert {t, u} <= Holders(c, Private) && |{t, u}| == 2;
      SubsetSize({t, u}, Holders(c, Private));
    }
  }

  lemma {:induction false} SubsetSize<T>(a: set<T>, b: set<T>)
    requires a <= b
    ensures |a| <= |b|
  {
    assert b == a + (b - a);
  }

  /** An idle coordinator has nobody waiting. */
  lemma NobodyStranded(c: Coord)
    requires Inv(c) && forall t :: !Effective(c, t)
    ensures c.waitingAgents == [] && c.waitingPrivate == []
  {
    if t :| t in Holders(c, Agent) { assert Effective(c, t); }
    if t :| t in Holders(c, Private) { assert Effective(c, t); }
  }

  /******* Whole runs and exact waiting times *******/

  /** A new call is admitted at once, exactly if its phase may begin, or becomes the last of its queue. */
  lemma AdmittedOrQueued(c: Coord, t: Ticket)
    requires !Known(c, t)
    ensures var d := Enter(c, t);
            && (t in d.spent <==>
                  !c.privateActive && if t.phase == Agent then c.waitingPrivate == [] else c.activeAgents == 0)
            && (t in d.spent ==>
                  Effective(d, t) && d.waitingAgents == c.waitingAgents && d.waitingPrivate == c.waitingPrivate)
            && (t !in d.spent ==>
                  && d.spent == c.spent
                  && d.waitingAgents == c.waitingAgents + (if t.phase == Agent then [t] else [])
                  && d.waitingPrivate == c.waitingPrivate + (if t.phase == Private then [t] else []))
  {
  }

  datatype Event = Call(ticket: Ticket) | Done(ticket: Ticket)

  function Step(c: Coord, e: Event): Coord {
    match e
    case Call(t) => if Known(c, t) then c else Enter(c, t)
    case Done(t) => Release(c, t)
  }

  function After(c: Coord, run: seq<Event>): Coord
    decreases |run|
  {
    if run == [] then c else After(Step(c, run[0]), run[1..])
  }

  /** How many of the run's releases do something. */
  function Releases(c: Coord, run: seq<Event>): nat
    decreases |run|
  {
    if run == [] then 0
    else (if run[0].Done? && Effective(c, run[0].ticket) then 1 else 0) + Releases(Step(c, run[0]), run[1..])
  }

  lemma StepKeepsInv(c: Coord, e: Event)
    requires Inv(c)
    ensures Inv(Step(c, e))
  {
    match e
    case Call(t) => if !Known(c, t) { EnterKeepsInv(c, t); }
    case Done(t) => ReleaseKeepsInv(c, t);
  }

  lemma {:induction false} InvAlways(c: Coord, run: seq<Event>)
    requires Inv(c)
    ensures Inv(After(c, run))
    decreases |run|
  {
    if run != [] {
      StepKeepsInv(c, run[0]);
      InvAlways(Step(c, run[0]), run[1..]);
    }
  }

  /** A spent release stays spent: calling it again, at any later time, changes nothing. */
  lemma {:induction false} ReleaseOnce(c: Coord, t: Ticket, run: seq<Event>)
    requires Inv(c) && t in c.spent && c.spent[t]
    ensures var d := After(c, run); t in d.spent && d.spent[t] && Release(d, t) == d
    decreases |run|
  {
    if run != [] {
      SpentKept(c, run[0], t);
      StepKeepsInv(c, run[0]);
      ReleaseOnce(Step(c, run[0]), t, run[1..]);
    }
  }

  lemma SpentKept(c: Coord, e: Event, t: Ticket)
    requires Inv(c) && t in c.spent && c.spent[t]
    ensures t in Step(c, e).spent && Step(c, e).spent[t]
  {
  }

  function Busy(c: Coord): int {
    c.activeAgents + (if c.privateActive then 1 else 0)
  }

  /** One event: an effective release brings the i-th private waiter one closer, anything else does not move it. */
  lemma PrivateMoves(c: Coord, e: Event, i: nat)
    requires Inv(c) && i < |c.waitingPrivate|
    ensures var d := Step(c, e);
            var t := c.waitingPrivate[i];
            var n := if e.Done? && Effective(c, e.ticket) then 1 else 0;
            var left := Busy(c) + i - n;
            && left >= 0
            && (left == 0 ==> t in d.spent)
            && (left > 0 ==> exists k: nat :: k < |d.waitingPrivate| && d.waitingPrivate[k] == t && Busy(d) + k == left)
  {
    var d := Step(c, e);
    var t := c.waitingPrivate[i];
    if e.Done? && Effective(c, e.ticket) {
      assert e.ticket in Holders(c, e.ticket.phase);
      if c.activeAgents > 1 { assert d.waitingPrivate[i] == t; }
      else if i > 0 { assert d.waitingPrivate[i - 1] == t; }
    } else {
      assert d.waitingPrivate[i] == t;
    }
  }

  /**
   A private phase with `i` private phases queued before it is admitted by exactly the
   (active agents + active private + i)-th effective release, whatever arrives in the meantime.
   */
  lemma {:induction false} PrivateWaitsExactly(c: Coord, run: seq<Event>, i: nat)
    requires Inv(c) && i < |c.waitingPrivate|
    ensures var t := c.waitingPrivate[i];
            var d := After(c, run);
            t in d.spent <==> Releases(c, run) >= Busy(c) + i
    decreases |run|
  {
    var t := c.waitingPrivate[i];
    if run != [] {
      var d := Step(c, run[0]);
      PrivateMoves(c, run[0], i);
      StepKeepsInv(c, run[0]);
      if t in d.spent {
        GrantKept(d, run[1..], t);
      } else {
        var k: nat :| k < |d.waitingPrivate| && d.waitingPrivate[k] == t
                      && Busy(d) + k == Busy(c) + i - (if run[0].Done? && Effective(c, run[0].ticket) then 1 else 0);
        PrivateWaitsExactly(d, run[1..], k);
      }
    }
  }

  lemma {:induction false} GrantKept(c: Coord, run: seq<Event>, t: Ticket)
    requires t in c.spent
    ensures t in After(c, run).spent
    decreases |run|
  {
    if run != [] { GrantKept(Step(c, run[0]), run[1..], t); }
  }

  predicate NoPrivateCalls(run: seq<Event>) {
    forall e | e in run :: !(e.Call? && e.ticket.phase == Private)
  }

  lemma AgentMoves(c: Coord, e: Event, t: Ticket)
    requires Inv(c) && t in c.waitingAgents && !(e.Call? && e.ticket.phase == Private)
    ensures var d := Step(c, e);
            var n := if e.Done? && Effective(c, e.ticket) then 1 else 0;
            var left := Busy(c) + |c.waitingPrivate| - n;
            && left >= 0
            && (left == 0 ==> t in d.spent)
            && (left > 0 ==> t in d.waitingAgents && Busy(d) + |d.waitingPrivate| == left)
  {
    if e.Done? && Effective(c, e.ticket) {
      assert e.ticket in Holders(c, e.ticket.phase);
    }
  }

  /** A waiting agent is admitted by exactly the release that ends the last private phase, if no more arrive. */
  lemma {:induction false} AgentWaitsExactly(c: Coord, run: seq<Event>, t: Ticket)
    requires Inv(c) && t in c.waitingAgents && NoPrivateCalls(run)
    ensures t in After(c, run).spent <==> Releases(c, run) >= Busy(c) + |c.waitingPrivate|
    decreases |run|
  {
    if run != [] {
      var d := Step(c, run[0]);
      AgentMoves(c, run[0], t);
      StepKeepsInv(c, run[0]);
      if t in d.spent { GrantKept(d, run[1..], t); } else { AgentWaitsExactly(d, run[1..], t); }
    }
  }

  /** Private arrivals can hold a waiting agent back for any number of releases. */
  function Relay(k: nat, n: nat): seq<Event>
    decreases n
  {
    if n == 0 then [] else [Call(Ticket(k + 1, Private)), Done(Ticket(k, Private))] + Relay(k + 1, n - 1)
  }

  lemma {:induction false} AgentsCanStarve(c: Coord, t: Ticket, k: nat, n: nat)
    requires Inv(c) && t in c.waitingAgents && c.privateActive && c.waitingPrivate == []
    requires Effective(c, Ticket(k, Private))
    requires forall u: Ticket | u.phase == Private && u.caller > k :: !Known(c, u)
    ensures Releases(c, Relay(k, n)) == n && t in After(c, Relay(k, n)).waitingAgents
    decreases n
  {
    if n > 0 {
      var next := Ticket(k + 1, Private);
      var d := Step(c, Call(next));
      var e := Step(d, Done(Ticket(k, Private)));
      StepKeepsInv(c, Call(next));
      StepKeepsInv(d, Done(Ticket(k, Private)));
      var run := Relay(k, n);
      assert run[1..][1..] == Relay(k + 1, n - 1) && run[1..][0] == run[1];
      assert After(c, run) == After(d, run[1..]) == After(e, Relay(k + 1, n - 1));
      assert Releases(c, run) == Releases(d, run[1..]) == 1 + Releases(e, Relay(k + 1, n - 1));
      AgentsCanStarve(e, t, k + 1, n - 1);
    }
  }
}
