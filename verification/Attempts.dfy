/**
 N isolated attempts sharing one phase coordinator.

 `StepAttempt` runs one attempt from one await to the next; `Evidence` holds what the outside world
 answers there (commands, copies, the abort signal).  Any interleaving of steps is allowed.
 */
module Attempts {
  import opened Coordinator

  /******* The attempt's own states *******/

  datatype AttemptState =
    | QUEUED | PREPARING | SETUP | AGENT_RUNNING | VERIFYING | VERIFYING_PRIVATE | COLLECTING
    | COMPLETED | FAILED | CANCELLED | TIMED_OUT

  function Transitions(s: AttemptState): set<AttemptState> {
    match s
    case QUEUED => {PREPARING, CANCELLED}
    case PREPARING => {SETUP, FAILED, TIMED_OUT, CANCELLED}
    case SETUP => {AGENT_RUNNING, FAILED, TIMED_OUT, CANCELLED}
    case AGENT_RUNNING => {VERIFYING, FAILED, TIMED_OUT, CANCELLED}
    case VERIFYING => {COLLECTING, FAILED, TIMED_OUT, CANCELLED}
    case COLLECTING => {VERIFYING_PRIVATE, COMPLETED, FAILED}
    case VERIFYING_PRIVATE => {COLLECTING, COMPLETED, FAILED, TIMED_OUT, CANCELLED}
    case _ => {}
  }

  predicate Terminal(s: AttemptState) {
    Transitions(s) == {}
  }

  ghost predicate LegalPath(h: seq<AttemptState>) {
    && h != [] && h[0] == QUEUED
    && forall i | 0 <= i < |h| - 1 :: h[i + 1] in Transitions(h[i])
  }

  /******* The phase skeleton *******/

  datatype Pc =
    | Start | Copying | WantAgent | AwaitAgent | InAgent | Checking | Collecting
    | AwaitPrivate | CopyingPrivate | InPrivate | Judging
    | Returned        // a result was returned
    | Threw           // an error was thrown, every lock given back
    | Leaked          // removing the private workspace failed, so its release was never called
    | IllegalMove     // transitionAttempt refused a move

  datatype Attempt = Attempt(pc: Pc, history: seq<AttemptState>, checks: nat)

  datatype Evidence = Evidence(
    threw: bool, aborted: bool, cancelled: bool, ok: bool, timedOut: bool, cleanupFails: bool)

  datatype Sys = Sys(coord: Coord, attempts: seq<Attempt>)

  /** `move`: pushes a state, or throws when the table forbids it. */
  function Move(a: Attempt, s: AttemptState, pc: Pc): Attempt {
    if a.pc == IllegalMove || (a.history != [] && s !in Transitions(a.history[|a.history| - 1]))
    then a.(pc := IllegalMove)
    else Attempt(pc, a.history + [s], a.checks)
  }

  function Set(s: Sys, i: nat, a: Attempt): Sys
    requires i < |s.attempts|
  {
    s.(attempts := s.attempts[i := a])
  }

  function Ask(s: Sys, i: nat, p: Phase, inside: Pc, waiting: Pc): Sys
    requires i < |s.attempts|
  {
    var c := Step(s.coord, Call(Ticket(i, p)));
    Sys(c, s.attempts[i := s.attempts[i].(pc := if Ticket(i, p) in c.spent then inside else waiting)])
  }

  function GiveBack(s: Sys, i: nat, p: Phase, a: Attempt): Sys
    requires i < |s.attempts|
  {
    Sys(Release(s.coord, Ticket(i, p)), s.attempts[i := a])
  }

  function AfterStart(a: Attempt, e: Evidence): Attempt {
    var queued := Move(a, QUEUED, Start);
    if e.aborted then Move(queued, CANCELLED, Returned) else Move(queued, PREPARING, Copying)
  }

  function AfterCopy(a: Attempt, e: Evidence): Attempt {
    if e.threw then a.(pc := Threw)
    else if e.aborted then Move(a, CANCELLED, Returned)
    else Move(Move(a, SETUP, Copying), AGENT_RUNNING, WantAgent)
  }

  function AfterAgent(a: Attempt, e: Evidence): Attempt {
    if e.threw then a.(pc := Threw)
    else if e.cancelled || e.aborted then Move(a, CANCELLED, Returned)
    else if !e.ok || e.timedOut then Move(a, if e.timedOut then TIMED_OUT else FAILED, Returned)
    else Move(a, VERIFYING, Checking)
  }

  function AfterCheck(a: Attempt, e: Evidence): Attempt {
    if a.checks == 0 then Move(a, COLLECTING, Collecting)
    else if e.threw then a.(pc := Threw)
    else if e.cancelled || e.aborted then Move(a, CANCELLED, Returned)
    else if !e.ok || e.timedOut then Move(a, COLLECTING, Collecting)
    else a.(checks := a.checks - 1)
  }

  function AfterPrivate(a: Attempt, e: Evidence): Attempt {
    if e.threw then a.(pc := Threw)
    else if e.aborted then Move(a, CANCELLED, Returned)
    else a.(pc := Judging)
  }

  function StepAttempt(s: Sys, i: nat, e: Evidence): (u: Sys)
    requires i < |s.attempts|
    ensures |u.attempts| == |s.attempts|
    ensures forall j | 0 <= j < |s.attempts| && j != i :: u.attempts[j] == s.attempts[j]
  {
    var a := s.attempts[i];
    match a.pc
    case Start => Set(s, i, AfterStart(a, e))
    case Copying => Set(s, i, AfterCopy(a, e))
    case WantAgent => Ask(s, i, Agent, InAgent, AwaitAgent)
    case AwaitAgent => if Ticket(i, Agent) in s.coord.spent then Set(s, i, a.(pc := InAgent)) else s
    case InAgent => GiveBack(s, i, Agent, AfterAgent(a, e))
    case Checking => Set(s, i, AfterCheck(a, e))
    case Collecting => if e.threw then Set(s, i, a.(pc := Threw)) else Ask(s, i, Private, CopyingPrivate, AwaitPrivate)
    case AwaitPrivate => if Ticket(i, Private) in s.coord.spent then Set(s, i, a.(pc := CopyingPrivate)) else s
    case CopyingPrivate =>
      if !e.threw then Set(s, i, Move(a, VERIFYING_PRIVATE, InPrivate))
      else if e.cleanupFails then Set(s, i, a.(pc := Leaked))
      else GiveBack(s, i, Private, a.(pc := Threw))
    case InPrivate =>
      if e.cleanupFails then Set(s, i, a.(pc := Leaked))
      else GiveBack(s, i, Private, AfterPrivate(a, e))
    case Judging => Set(s, i, if e.threw then a.(pc := Threw) else Move(a, COMPLETED, Returned))
    case _ => s
  }

  predicate Initial(s: Sys) {
    s.coord == IDLE && forall i | 0 <= i < |s.attempts| :: s.attempts[i].pc == Start && s.attempts[i].history == []
  }

  /** A schedule picks an attempt and the world's answer at every step. */
  datatype Turn = Turn(attempt: nat, evidence: Evidence)

  function TakeTurn(s: Sys, t: Turn): Sys {
    if t.attempt < |s.attempts| then StepAttempt(s, t.attempt, t.evidence) else s
  }

  function AfterTurns(s: Sys, schedule: seq<Turn>): (u: Sys)
    ensures |u.attempts| == |s.attempts|
    decreases |schedule|
  {
    if schedule == [] then s else AfterTurns(TakeTurn(s, schedule[0]), schedule[1..])
  }

  /******* The composed invariant *******/

  datatype Use = Unused | Queued | Held | Spent

  ghost function UseOf(c: Coord, t: Ticket): Use {
    if t in c.spent then (if c.spent[t] then Spent else Held)
    else if t in c.waitingAgents || t in c.waitingPrivate then Queued
    else Unused
  }

  predicate AgentUseOk(pc: Pc, u: Use) {
    match pc
    case Start => u == Unused
    case Copying => u == Unused
    case WantAgent => u == Unused
    case AwaitAgent => u == Queued || u == Held
    case InAgent => u == Held
    case _ => u == Unused || u == Spent
  }

  predicate PrivateUseOk(pc: Pc, u: Use) {
    match pc
    case AwaitPrivate => u == Queued || u == Held
    case CopyingPrivate => u == Held
    case InPrivate => u == Held
    case Leaked => u == Held
    case Judging => u == Spent
    case Returned => u == Unused || u == Spent
    case Threw => u == Unused || u == Spent
    case _ => u == Unused
  }

  /** The last state of an attempt's history is fixed by where it stands. */
  predicate LastOk(pc: Pc, last: AttemptState) {
    match pc
    case Copying => last == PREPARING
    case WantAgent => last == AGENT_RUNNING
    case AwaitAgent => last == AGENT_RUNNING
    case InAgent => last == AGENT_RUNNING
    case Checking => last == VERIFYING
    case Collecting => last == COLLECTING
    case AwaitPrivate => last == COLLECTING
    case CopyingPrivate => last == COLLECTING
    case InPrivate => last == VERIFYING_PRIVATE
    case Judging => last == VERIFYING_PRIVATE
    case Returned => Terminal(last)
    case Threw => true
    case Leaked => true
    case _ => false
  }

  ghost predicate AttemptOk(a: Attempt) {
    if a.pc == Start then a.history == []
    else LegalPath(a.history) && LastOk(a.pc, a.history[|a.history| - 1])
  }

  ghost predicate SysOk(s: Sys, i: nat)
    requires i < |s.attempts|
  {
    && AttemptOk(s.attempts[i])
    && AgentUseOk(s.attempts[i].pc, UseOf(s.coord, Ticket(i, Agent)))
    && PrivateUseOk(s.attempts[i].pc, UseOf(s.coord, Ticket(i, Private)))
  }

  ghost predicate SysInv(s: Sys) {
    && Inv(s.coord)
    && (forall t | Known(s.coord, t) :: t.caller < |s.attempts|)
    && forall i | 0 <= i < |s.attempts| :: SysOk(s, i)
  }

  predicate Moved(before: Use, after: Use) {
    after == before || (before == Queued && after == Held)
  }

  lemma DrainUse(c: Coord, u: Ticket)
    requires Queue(c, c.waitingAgents, Agent) && Queue(c, c.waitingPrivate, Private)
    ensures Moved(UseOf(c, u), UseOf(Drain(c), u))
  {
  }

  lemma ReleaseUse(c: Coord, t: Ticket, u: Ticket)
    requires Queue(c, c.waitingAgents, Agent) && Queue(c, c.waitingPrivate, Private) && u != t
    ensures Moved(UseOf(c, u), UseOf(Release(c, t), u))
  {
    if Effective(c, t) {
      var d := c.(spent := c.spent[t := true]);
      DrainUse(if t.phase == Agent then d.(activeAgents := d.activeAgents - 1) else d.(privateActive := false), u);
    }
  }

  /** Another ticket's call or release can only turn a queued ticket into a held one. */
  lemma UseStable(c: Coord, e: Event, u: Ticket)
    requires Inv(c) && u != e.ticket
    ensures Moved(UseOf(c, u), UseOf(Step(c, e), u))
  {
    if e.Done? { ReleaseUse(c, e.ticket, u); }
  }

  lemma UseOfCaller(c: Coord, t: Ticket)
    requires Inv(c)
    ensures UseOf(c, t) == Unused ==>
              && UseOf(Step(c, Call(t)), t) == (if t in Step(c, Call(t)).spent then Held else Queued)
    ensures UseOf(c, t) == Held ==> UseOf(Step(c, Done(t)), t) == Spent
  {
  }

  lemma KnownOnly(c: Coord, e: Event, t: Ticket)
    requires Inv(c) && Known(Step(c, e), t)
    ensures Known(c, t) || t == e.ticket
  {
  }

  /** Replacing attempt `i` and stepping the coordinator on one of its tickets keeps every other attempt in order. */
  lemma OthersKept(s: Sys, i: nat, e: Event, a: Attempt)
    requires SysInv(s) && i < |s.attempts| && e.ticket.caller == i
    requires SysOk(Sys(Step(s.coord, e), s.attempts[i := a]), i)
    ensures SysInv(Sys(Step(s.coord, e), s.attempts[i := a]))
  {
    var u := Sys(Step(s.coord, e), s.attempts[i := a]);
    StepKeepsInv(s.coord, e);
    forall t | Known(u.coord, t) ensures t.caller < |u.attempts| { KnownOnly(s.coord, e, t); }
    forall j | 0 <= j < |u.attempts| ensures SysOk(u, j) {
      if j != i {
        assert SysOk(s, j);
        UseStable(s.coord, e, Ticket(j, Agent));
        UseStable(s.coord, e, Ticket(j, Private));
      }
    }
  }

  lemma SetKept(s: Sys, i: nat, a: Attempt)
    requires SysInv(s) && i < |s.attempts| && SysOk(Set(s, i, a), i)
    ensures SysInv(Set(s, i, a))
  {
    forall j | 0 <= j < |s.attempts| ensures SysOk(Set(s, i, a), j) {
      if j != i { assert SysOk(s, j); }
    }
  }

  lemma MoveOk(a: Attempt, s: AttemptState, pc: Pc)
    requires a.pc != IllegalMove && (a.history == [] ==> s == QUEUED) && (a.history != [] ==> LegalPath(a.history))
    requires a.history != [] ==> s in Transitions(a.history[|a.history| - 1])
    ensures var b := Move(a, s, pc); b.pc == pc && LegalPath(b.history) && b.history[|b.history| - 1] == s
  {
  }

  lemma StartMovesLegal(a: Attempt, e: Evidence)
    requires a.pc == Start && AttemptOk(a)
    ensures AttemptOk(AfterStart(a, e)) && AfterStart(a, e).pc in {Returned, Copying}
  {
    var queued := Move(a, QUEUED, Start);
    MoveOk(a, QUEUED, Start);
    MoveOk(queued, CANCELLED, Returned);
    MoveOk(queued, PREPARING, Copying);
  }

  lemma CopyMovesLegal(a: Attempt, e: Evidence)
    requires a.pc == Copying && AttemptOk(a)
    ensures AttemptOk(AfterCopy(a, e)) && AfterCopy(a, e).pc in {Threw, Returned, WantAgent}
  {
    MoveOk(a, CANCELLED, Returned);
    MoveOk(a, SETUP, Copying);
    MoveOk(Move(a, SETUP, Copying), AGENT_RUNNING, WantAgent);
  }

  lemma AgentMovesLegal(a: Attempt, e: Evidence)
    requires a.pc == InAgent && AttemptOk(a)
    ensures AttemptOk(AfterAgent(a, e)) && AfterAgent(a, e).pc in {Threw, Returned, Checking}
  {
    MoveOk(a, CANCELLED, Returned);
    MoveOk(a, if e.timedOut then TIMED_OUT else FAILED, Returned);
    MoveOk(a, VERIFYING, Checking);
  }

  lemma CheckMovesLegal(a: Attempt, e: Evidence)
    requires a.pc == Checking && AttemptOk(a)
    ensures AttemptOk(AfterCheck(a, e)) && AfterCheck(a, e).pc in {Threw, Returned, Checking, Collecting}
  {
    MoveOk(a, COLLECTING, Collecting);
    MoveOk(a, CANCELLED, Returned);
  }

  /** Whatever the evidence, an attempt moves along its table. */
  lemma AttemptStaysOk(s: Sys, i: nat, e: Evidence)
    requires i < |s.attempts| && AttemptOk(s.attempts[i])
    ensures AttemptOk(StepAttempt(s, i, e).attempts[i])
  {
    var a := s.attempts[i];
    match a.pc
    case Start => StartMovesLegal(a, e);
    case Copying => CopyMovesLegal(a, e);
    case InAgent => AgentMovesLegal(a, e);
    case Checking => CheckMovesLegal(a, e);
    case CopyingPrivate => MoveOk(a, VERIFYING_PRIVATE, InPrivate);
    case InPrivate => MoveOk(a, CANCELLED, Returned);
    case Judging => MoveOk(a, COMPLETED, Returned);
    case _ =>
  }

  /** Steps that leave the coordinator alone. */
  predicate LocalStep(s: Sys, i: nat, e: Evidence)
    requires i < |s.attempts|
  {
    StepAttempt(s, i, e).coord == s.coord && s.attempts[i].pc != WantAgent && s.attempts[i].pc != InAgent
  }

  lemma LocalUseOk(s: Sys, i: nat, e: Evidence)
    requires SysInv(s) && i < |s.attempts| && LocalStep(s, i, e)
    ensures var pc := StepAttempt(s, i, e).attempts[i].pc;
            AgentUseOk(pc, UseOf(s.coord, Ticket(i, Agent))) && PrivateUseOk(pc, UseOf(s.coord, Ticket(i, Private)))
  {
    assert SysOk(s, i);
    var a := s.attempts[i];
    match a.pc
    case Start => StartMovesLegal(a, e);
    case Copying => CopyMovesLegal(a, e);
    case Checking => CheckMovesLegal(a, e);
    case _ =>
  }

  lemma LocalStepOk(s: Sys, i: nat, e: Evidence)
    requires SysInv(s) && i < |s.attempts| && LocalStep(s, i, e)
    ensures SysOk(StepAttempt(s, i, e), i)
  {
    assert SysOk(s, i);
    AttemptStaysOk(s, i, e);
    LocalUseOk(s, i, e);
  }

  lemma AgentStepOk(s: Sys, i: nat, e: Evidence)
    requires SysInv(s) && i < |s.attempts| && s.attempts[i].pc in {WantAgent, InAgent}
    ensures SysOk(StepAttempt(s, i, e), i)
  {
    assert SysOk(s, i);
    var t := Ticket(i, Agent);
    AttemptStaysOk(s, i, e);
    if s.attempts[i].pc == InAgent { AgentMovesLegal(s.attempts[i], e); }
    UseOfCaller(s.coord, t);
    UseStable(s.coord, if s.attempts[i].pc == WantAgent then Call(t) else Done(t), Ticket(i, Private));
  }

  /** What the step of an attempt around its private phase asks of the coordinator. */
  predicate PrivateStep(s: Sys, i: nat, e: Evidence)
    requires i < |s.attempts|
  {
    s.attempts[i].pc in {Collecting, CopyingPrivate, InPrivate} && StepAttempt(s, i, e).coord != s.coord
  }

  lemma PrivateAskOk(s: Sys, i: nat, e: Evidence)
    requires SysInv(s) && i < |s.attempts| && PrivateStep(s, i, e) && s.attempts[i].pc == Collecting
    ensures SysOk(StepAttempt(s, i, e), i)
  {
    assert SysOk(s, i);
    AttemptStaysOk(s, i, e);
    UseOfCaller(s.coord, Ticket(i, Private));
    UseStable(s.coord, Call(Ticket(i, Private)), Ticket(i, Agent));
  }

  lemma PrivateReturnOk(s: Sys, i: nat, e: Evidence)
    requires SysInv(s) && i < |s.attempts| && PrivateStep(s, i, e) && s.attempts[i].pc != Collecting
    ensures SysOk(StepAttempt(s, i, e), i)
  {
    assert SysOk(s, i);
    AttemptStaysOk(s, i, e);
    MoveOk(s.attempts[i], if s.attempts[i].pc == InPrivate then CANCELLED else VERIFYING_PRIVATE, Returned);
    UseOfCaller(s.coord, Ticket(i, Private));
    UseStable(s.coord, Done(Ticket(i, Private)), Ticket(i, Agent));
  }

  lemma StepKeepsSysInv(s: Sys, i: nat, e: Evidence)
    requires SysInv(s) && i < |s.attempts|
    ensures SysInv(StepAttempt(s, i, e))
  {
    var pc := s.attempts[i].pc;
    var u := StepAttempt(s, i, e);
    if pc == WantAgent || pc == InAgent {
      AgentStepOk(s, i, e);
      OthersKept(s, i, if pc == WantAgent then Call(Ticket(i, Agent)) else Done(Ticket(i, Agent)), u.attempts[i]);
    } else if u.coord != s.coord {
      if pc == Collecting { PrivateAskOk(s, i, e); } else { PrivateReturnOk(s, i, e); }
      OthersKept(s, i, if pc == Collecting then Call(Ticket(i, Private)) else Done(Ticket(i, Private)), u.attempts[i]);
    } else {
      LocalStepOk(s, i, e);
      assert u == Set(s, i, u.attempts[i]);
      SetKept(s, i, u.attempts[i]);
    }
  }

  lemma InitialInv(s: Sys)
    requires Initial(s)
    ensures SysInv(s)
  {
  }

  lemma {:induction false} SysInvAlways(s: Sys, schedule: seq<Turn>)
    requires SysInv(s)
    ensures SysInv(AfterTurns(s, schedule)) && |AfterTurns(s, schedule).attempts| == |s.attempts|
    decreases |schedule|
  {
    if schedule != [] {
      if schedule[0].attempt < |s.attempts| { StepKeepsSysInv(s, schedule[0].attempt, schedule[0].evidence); }
      SysInvAlways(TakeTurn(s, schedule[0]), schedule[1..]);
    }
  }

  /******* Main results *******/

  predicate InPrivatePhase(pc: Pc) {
    pc == CopyingPrivate || pc == InPrivate || pc == Leaked
  }

  /** In every interleaving, no agent runs while private material is out, and one attempt at most has it out. */
  lemma HiddenAssetsProtected(s: Sys, schedule: seq<Turn>, i: nat, j: nat)
    requires Initial(s) && i < |s.attempts| && j < |s.attempts| && i != j
    ensures var u := AfterTurns(s, schedule);
            |u.attempts| == |s.attempts| && (InPrivatePhase(u.attempts[i].pc) ==>
              u.attempts[j].pc != InAgent && !InPrivatePhase(u.attempts[j].pc))
  {
    InitialInv(s);
    SysInvAlways(s, schedule);
    var u := AfterTurns(s, schedule);
    assert SysOk(u, i) && SysOk(u, j);
    if InPrivatePhase(u.attempts[i].pc) {
      if u.attempts[j].pc == InAgent { MutualExclusion(u.coord, Ticket(i, Private), Ticket(j, Agent)); }
      if InPrivatePhase(u.attempts[j].pc) { MutualExclusion(u.coord, Ticket(i, Private), Ticket(j, Private)); }
    }
  }

  /** In every interleaving no move is refused, and an attempt that returned walked a legal path to a terminal state. */
  lemma HistoriesLegal(s: Sys, schedule: seq<Turn>, i: nat)
    requires Initial(s) && i < |s.attempts|
    ensures var u := AfterTurns(s, schedule);
            && |u.attempts| == |s.attempts| && u.attempts[i].pc != IllegalMove
            && (u.attempts[i].history == [] || LegalPath(u.attempts[i].history))
            && (u.attempts[i].pc == Returned ==>
                  u.attempts[i].history != [] && Terminal(u.attempts[i].history[|u.attempts[i].history| - 1]))
  {
    InitialInv(s);
    SysInvAlways(s, schedule);
    assert SysOk(AfterTurns(s, schedule), i);
  }

  predicate Unfinished(pc: Pc) {
    pc != Returned && pc != Threw && pc != Leaked && pc != IllegalMove
  }

  /** The table by target: who may end how, and the one way forward. */
  lemma TableByTarget(s: AttemptState)
    ensures CANCELLED in Transitions(s) <==> s == QUEUED || TIMED_OUT in Transitions(s)
    ensures TIMED_OUT in Transitions(s) <==> s in {PREPARING, SETUP, AGENT_RUNNING, VERIFYING, VERIFYING_PRIVATE}
    ensures FAILED in Transitions(s) <==> TIMED_OUT in Transitions(s) || s == COLLECTING
    ensures COMPLETED in Transitions(s) <==> s == COLLECTING || s == VERIFYING_PRIVATE
    ensures COLLECTING in Transitions(s) <==> s == VERIFYING || s == VERIFYING_PRIVATE
    ensures Transitions(s) - {CANCELLED, TIMED_OUT, FAILED, COMPLETED, COLLECTING} ==
            match s
            case QUEUED => {PREPARING}
            case PREPARING => {SETUP}
            case SETUP => {AGENT_RUNNING}
            case AGENT_RUNNING => {VERIFYING}
            case COLLECTING => {VERIFYING_PRIVATE}
            case _ => {}
  {
  }

  /******* What an attempt's ending says *******/

  /** The evidence that ends an attempt at `a` in state `v`. */
  predicate Decides(a: Attempt, e: Evidence, v: AttemptState) {
    match v
    case CANCELLED =>
      || (a.pc == Start && e.aborted)
      || (a.pc == Copying && !e.threw && e.aborted)
      || (a.pc == InAgent && !e.threw && (e.cancelled || e.aborted))
      || (a.pc == Checking && a.checks > 0 && !e.threw && (e.cancelled || e.aborted))
      || (a.pc == InPrivate && !e.threw && !e.cleanupFails && e.aborted)
    case TIMED_OUT => a.pc == InAgent && !e.threw && !e.cancelled && !e.aborted && e.timedOut
    case FAILED => a.pc == InAgent && !e.threw && !e.cancelled && !e.aborted && !e.timedOut && !e.ok
    case COMPLETED => a.pc == Judging && !e.threw
    case _ => false
  }

  predicate EndedIn(a: Attempt, v: AttemptState) {
    a.pc == Returned && a.history != [] && a.history[|a.history| - 1] == v
  }

  /** The states on the way to COMPLETED. */
  const PATH: seq<AttemptState> :=
    [QUEUED, PREPARING, SETUP, AGENT_RUNNING, VERIFYING, COLLECTING, VERIFYING_PRIVATE]

  /** How many of them an attempt has been through. */
  function Passed(pc: Pc): nat {
    match pc
    case Start => 0
    case Copying => 2
    case WantAgent => 4
    case AwaitAgent => 4
    case InAgent => 4
    case Checking => 5
    case Collecting => 6
    case AwaitPrivate => 6
    case CopyingPrivate => 6
    case InPrivate => 7
    case Judging => 7
    case _ => 0
  }

  /** An attempt that goes on has walked that path, and one that has returned left it for its ending. */
  predicate OnPath(a: Attempt) {
    if Unfinished(a.pc) then a.history == PATH[..Passed(a.pc)]
    else a.pc == Returned ==>
      && a.history != [] && |a.history| <= 8 && a.history[..|a.history| - 1] == PATH[..|a.history| - 1]
      && (EndedIn(a, COMPLETED) ==> |a.history| == 8)
      && (EndedIn(a, FAILED) || EndedIn(a, TIMED_OUT) ==> |a.history| == 5)
  }

  /** What a turn with evidence `e` must make of `a`. */
  predicate EndsRight(a: Attempt, e: Evidence, b: Attempt, v: AttemptState) {
    OnPath(b) && (EndedIn(b, v) <==> Decides(a, e, v))
  }

  /** One more state along a path, or off it. */
  lemma OneMore(path: seq<AttemptState>, a: Attempt, n: nat, s: AttemptState, pc: Pc)
    requires a.pc != IllegalMove && 1 <= n <= |path| && a.history == path[..n] && s in Transitions(path[n - 1])
    ensures var b := Move(a, s, pc);
            && b.pc == pc && b.checks == a.checks && |b.history| == n + 1 && b.history[n] == s
            && b.history[..n] == path[..n] && (n < |path| && s == path[n] ==> b.history == path[..n + 1])
  {
    assert a.history[|a.history| - 1] == path[n - 1];
  }

  lemma StartEnds(a: Attempt, e: Evidence, v: AttemptState)
    requires a.pc == Start && OnPath(a)
    ensures EndsRight(a, e, AfterStart(a, e), v)
  {
    var queued := Move(a, QUEUED, Start);
    assert queued.history == PATH[..1];
    OneMore(PATH, queued, 1, CANCELLED, Returned);
    OneMore(PATH, queued, 1, PREPARING, Copying);
  }

  lemma CopyEnds(a: Attempt, e: Evidence, v: AttemptState)
    requires a.pc == Copying && OnPath(a)
    ensures EndsRight(a, e, AfterCopy(a, e), v)
  {
    if e.aborted {
      OneMore(PATH, a, 2, CANCELLED, Returned);
    } else {
      OneMore(PATH, a, 2, SETUP, Copying);
      OneMore(PATH, Move(a, SETUP, Copying), 3, AGENT_RUNNING, WantAgent);
    }
  }

  lemma AgentEnds(a: Attempt, e: Evidence, v: AttemptState)
    requires a.pc == InAgent && OnPath(a)
    ensures EndsRight(a, e, AfterAgent(a, e), v)
  {
    if e.cancelled || e.aborted {
      OneMore(PATH, a, 4, CANCELLED, Returned);
    } else if e.ok && !e.timedOut {
      OneMore(PATH, a, 4, VERIFYING, Checking);
    } else {
      OneMore(PATH, a, 4, if e.timedOut then TIMED_OUT else FAILED, Returned);
    }
  }

  lemma CheckEnds(a: Attempt, e: Evidence, v: AttemptState)
    requires a.pc == Checking && OnPath(a)
    ensures EndsRight(a, e, AfterCheck(a, e), v)
  {
    OneMore(PATH, a, 5, CANCELLED, Returned);
    OneMore(PATH, a, 5, COLLECTING, Collecting);
  }

  lemma PrivateEnds(a: Attempt, e: Evidence, v: AttemptState)
    requires a.pc == InPrivate && OnPath(a) && !e.cleanupFails
    ensures EndsRight(a, e, AfterPrivate(a, e), v)
  {
    OneMore(PATH, a, 7, CANCELLED, Returned);
  }

  lemma LateEnds(s: Sys, i: nat, e: Evidence, v: AttemptState)
    requires i < |s.attempts| && OnPath(s.attempts[i]) && s.attempts[i].pc in {CopyingPrivate, InPrivate, Judging}
    ensures EndsRight(s.attempts[i], e, StepAttempt(s, i, e).attempts[i], v)
  {
    var a := s.attempts[i];
    if a.pc == CopyingPrivate {
      OneMore(PATH, a, 6, VERIFYING_PRIVATE, InPrivate);
    } else if a.pc == Judging {
      OneMore(PATH, a, 7, COMPLETED, Returned);
    } else if !e.cleanupFails {
      PrivateEnds(a, e, v);
    }
  }

  /** A turn of attempt `i` ends it in state `v` exactly if its evidence says so. */
  lemma EndsExactlyIf(s: Sys, i: nat, e: Evidence, v: AttemptState)
    requires i < |s.attempts| && OnPath(s.attempts[i]) && s.attempts[i].pc != Returned
    ensures EndsRight(s.attempts[i], e, StepAttempt(s, i, e).attempts[i], v)
  {
    var a := s.attempts[i];
    match a.pc
    case Start => StartEnds(a, e, v);
    case Copying => CopyEnds(a, e, v);
    case InAgent => AgentEnds(a, e, v);
    case Checking => CheckEnds(a, e, v);
    case CopyingPrivate => LateEnds(s, i, e, v);
    case InPrivate => LateEnds(s, i, e, v);
    case Judging => LateEnds(s, i, e, v);
    case _ =>
  }

  /** Some turn of attempt `i` in this schedule has that evidence. */
  predicate SomeTurnDecides(s: Sys, schedule: seq<Turn>, i: nat, v: AttemptState)
    requires i < |s.attempts|
    decreases |schedule|
  {
    schedule != [] && (
      || (schedule[0].attempt == i && Decides(s.attempts[i], schedule[0].evidence, v))
      || SomeTurnDecides(TakeTurn(s, schedule[0]), schedule[1..], i, v))
  }

  lemma {:induction false} EndedFrom(s: Sys, schedule: seq<Turn>, i: nat, v: AttemptState)
    requires i < |s.attempts| && OnPath(s.attempts[i])
    ensures OnPath(AfterTurns(s, schedule).attempts[i])
    ensures EndedIn(AfterTurns(s, schedule).attempts[i], v) <==>
              EndedIn(s.attempts[i], v) || SomeTurnDecides(s, schedule, i, v)
    decreases |schedule|
  {
    if schedule != [] {
      var t := schedule[0];
      if t.attempt == i {
        if s.attempts[i].pc != Returned { EndsExactlyIf(s, i, t.evidence, v); }
      }
      EndedFrom(TakeTurn(s, t), schedule[1..], i, v);
    }
  }

  /**
   The public checks: the attempt goes on to collecting after the last one, or at the first that fails or times out;
   a check that passes leaves one less.
   */
  lemma ChecksExactlyIf(s: Sys, i: nat, e: Evidence)
    requires i < |s.attempts| && OnPath(s.attempts[i]) && s.attempts[i].pc == Checking
    ensures var a, b := s.attempts[i], StepAttempt(s, i, e).attempts[i];
            var stopped := e.threw || e.cancelled || e.aborted;
            && (b.pc == Collecting <==> a.checks == 0 || (!stopped && (!e.ok || e.timedOut)))
            && (b.pc == Checking <==> a.checks > 0 && !stopped && e.ok && !e.timedOut)
            && (b.pc == Checking ==> b.checks == a.checks - 1 && b.history == a.history)
  {
    CheckEnds(s.attempts[i], e, CANCELLED);
    OneMore(PATH, s.attempts[i], 5, COLLECTING, Collecting);
  }

  /** The evidence that makes an attempt throw, with every lock given back. */
  predicate Throws(a: Attempt, e: Evidence) {
    && e.threw
    && (|| a.pc in {Copying, InAgent, Collecting, Judging} || (a.pc == Checking && a.checks > 0)
        || (a.pc in {CopyingPrivate, InPrivate} && !e.cleanupFails))
  }

  predicate SomeTurnThrows(s: Sys, schedule: seq<Turn>, i: nat)
    requires i < |s.attempts|
    decreases |schedule|
  {
    schedule != [] && (
      || (schedule[0].attempt == i && Throws(s.attempts[i], schedule[0].evidence))
      || SomeTurnThrows(TakeTurn(s, schedule[0]), schedule[1..], i))
  }

  lemma TurnThrows(s: Sys, i: nat, e: Evidence)
    requires i < |s.attempts|
    ensures StepAttempt(s, i, e).attempts[i].pc == Threw <==> s.attempts[i].pc == Threw || Throws(s.attempts[i], e)
  {
  }

  /** In every interleaving an attempt throws exactly if a turn of it had evidence that does. */
  lemma {:induction false} ThrowsExactlyIf(s: Sys, schedule: seq<Turn>, i: nat)
    requires i < |s.attempts|
    ensures AfterTurns(s, schedule).attempts[i].pc == Threw <==>
              s.attempts[i].pc == Threw || SomeTurnThrows(s, schedule, i)
    decreases |schedule|
  {
    if schedule != [] {
      if schedule[0].attempt == i { TurnThrows(s, i, schedule[0].evidence); }
      ThrowsExactlyIf(TakeTurn(s, schedule[0]), schedule[1..], i);
    }
  }

  lemma LastState(h: seq<AttemptState>, path: seq<AttemptState>)
    requires |h| == |path| + 1 && h[..|path|] == path
    ensures h == path + [h[|path|]]
  {
  }

  lemma PathOfEnded(a: Attempt)
    requires OnPath(a)
    ensures EndedIn(a, COMPLETED) ==> a.history == PATH + [COMPLETED]
    ensures EndedIn(a, FAILED) || EndedIn(a, TIMED_OUT) ==> a.history[..|a.history| - 1] == PATH[..4]
  {
    if EndedIn(a, COMPLETED) {
      assert PATH[..7] == PATH;
      LastState(a.history, PATH);
    }
  }

  /**
   In every interleaving an attempt returns CANCELLED, TIMED_OUT, FAILED or COMPLETED exactly if a turn of it had the
   evidence that says so; it returns COMPLETED by the whole path, and FAILED or TIMED_OUT only from its agent phase.
   */
  lemma EndingsExactlyIf(s: Sys, schedule: seq<Turn>, i: nat, v: AttemptState)
    requires Initial(s) && i < |s.attempts|
    ensures var a := AfterTurns(s, schedule).attempts[i];
            && (EndedIn(a, v) <==> SomeTurnDecides(s, schedule, i, v))
            && (a.pc == Returned ==> EndedIn(a, CANCELLED) || EndedIn(a, TIMED_OUT) || EndedIn(a, FAILED)
                                     || EndedIn(a, COMPLETED))
            && (EndedIn(a, COMPLETED) ==> a.history == PATH + [COMPLETED])
            && (EndedIn(a, FAILED) || EndedIn(a, TIMED_OUT) ==> a.history[..|a.history| - 1] == PATH[..4])
  {
    assert PATH[..0] == [];
    EndedFrom(s, schedule, i, v);
    HistoriesLegal(s, schedule, i);
    PathOfEnded(AfterTurns(s, schedule).attempts[i]);
  }

  /** Attempt `i` can move now: it is not finished and not waiting in a queue. */
  predicate Enabled(s: Sys, i: nat)
    requires i < |s.attempts|
  {
    && Unfinished(s.attempts[i].pc)
    && (s.attempts[i].pc == AwaitAgent ==> Ticket(i, Agent) in s.coord.spent)
    && (s.attempts[i].pc == AwaitPrivate ==> Ticket(i, Private) in s.coord.spent)
  }

  predicate NoLeak(s: Sys) {
    forall k | 0 <= k < |s.attempts| :: s.attempts[k].pc != Leaked
  }

  predicate Waits(pc: Pc) {
    pc == AwaitAgent || pc == AwaitPrivate
  }

  /** No deadlock: while an attempt is unfinished and no lock was leaked, some attempt can move. */
  lemma SomeoneCanMove(s: Sys, i: nat) returns (j: nat)
    requires SysInv(s) && i < |s.attempts| && Unfinished(s.attempts[i].pc) && NoLeak(s)
    ensures j < |s.attempts| && Enabled(s, j)
  {
    j := i;
    assert SysOk(s, i);
    if !Enabled(s, i) {
      if forall t :: !Effective(s.coord, t) { NobodyStranded(s.coord); }
      var t :| Effective(s.coord, t);
      assert Known(s.coord, t) && SysOk(s, t.caller);
      assert t == Ticket(t.caller, t.phase);
      j := t.caller;
    }
  }

  /******* Exactly which evidence leaks a lock *******/

  /** Removing the private workspace fails, after the private phase or after a copy that failed. */
  predicate CleanUpFails(s: Sys, t: Turn) {
    && t.attempt < |s.attempts| && t.evidence.cleanupFails
    && (s.attempts[t.attempt].pc == InPrivate || (s.attempts[t.attempt].pc == CopyingPrivate && t.evidence.threw))
  }

  predicate SomeCleanUpFails(s: Sys, schedule: seq<Turn>)
    decreases |schedule|
  {
    schedule != [] && (CleanUpFails(s, schedule[0]) || SomeCleanUpFails(TakeTurn(s, schedule[0]), schedule[1..]))
  }

  lemma TurnLeaks(s: Sys, t: Turn, k: nat)
    requires k < |s.attempts|
    ensures |TakeTurn(s, t).attempts| == |s.attempts|
    ensures TakeTurn(s, t).attempts[k].pc == Leaked <==>
            s.attempts[k].pc == Leaked || (t.attempt == k && CleanUpFails(s, t))
  {
  }

  /** A turn leaks a lock exactly when such a clean-up fails in it. */
  lemma LeaksExactlyIf(s: Sys, t: Turn)
    requires NoLeak(s)
    ensures !NoLeak(TakeTurn(s, t)) <==> CleanUpFails(s, t)
  {
    var u := TakeTurn(s, t);
    forall k | 0 <= k < |u.attempts| ensures u.attempts[k].pc == Leaked <==> t.attempt == k && CleanUpFails(s, t) {
      TurnLeaks(s, t, k);
    }
    if CleanUpFails(s, t) { TurnLeaks(s, t, t.attempt); }
  }

  lemma {:induction false} LeakedForGood(s: Sys, schedule: seq<Turn>, k: nat)
    requires k < |s.attempts| && s.attempts[k].pc == Leaked
    ensures AfterTurns(s, schedule).attempts[k].pc == Leaked
    decreases |schedule|
  {
    if schedule != [] {
      TurnLeaks(s, schedule[0], k);
      LeakedForGood(TakeTurn(s, schedule[0]), schedule[1..], k);
    }
  }

  /** And a schedule does exactly when one fails in some turn of it. */
  lemma {:induction false} ScheduleLeaksExactlyIf(s: Sys, schedule: seq<Turn>)
    requires NoLeak(s)
    ensures NoLeak(AfterTurns(s, schedule)) <==> !SomeCleanUpFails(s, schedule)
    decreases |schedule|
  {
    if schedule != [] {
      var u := TakeTurn(s, schedule[0]);
      LeaksExactlyIf(s, schedule[0]);
      if CleanUpFails(s, schedule[0]) {
        var k :| 0 <= k < |u.attempts| && u.attempts[k].pc == Leaked;
        LeakedForGood(u, schedule[1..], k);
      } else {
        ScheduleLeaksExactlyIf(u, schedule[1..]);
      }
    }
  }

  /******* A leaked lock *******/

  /** While `j` has leaked its private lock nobody else holds anything, and who waits cannot move. */
  lemma LeakBlocks(s: Sys, j: nat, i: nat)
    requires SysInv(s) && j < |s.attempts| && s.attempts[j].pc == Leaked && i < |s.attempts| && i != j
    ensures s.attempts[i].pc !in {InAgent, CopyingPrivate, InPrivate, Leaked, IllegalMove}
    ensures Enabled(s, i) <==> Unfinished(s.attempts[i].pc) && !Waits(s.attempts[i].pc)
  {
    assert SysOk(s, j) && SysOk(s, i);
    assert Effective(s.coord, Ticket(j, Private));
    if Effective(s.coord, Ticket(i, Agent)) { MutualExclusion(s.coord, Ticket(j, Private), Ticket(i, Agent)); }
    if Effective(s.coord, Ticket(i, Private)) { MutualExclusion(s.coord, Ticket(j, Private), Ticket(i, Private)); }
  }

  lemma LeakStays(s: Sys, t: Turn, j: nat, i: nat)
    requires SysInv(s) && j < |s.attempts| && s.attempts[j].pc == Leaked && i < |s.attempts| && i != j
    ensures SysInv(TakeTurn(s, t)) && |TakeTurn(s, t).attempts| == |s.attempts|
    ensures TakeTurn(s, t).attempts[j].pc == Leaked
    ensures Waits(s.attempts[i].pc) ==> TakeTurn(s, t).attempts[i] == s.attempts[i]
  {
    LeakBlocks(s, j, i);
    if t.attempt < |s.attempts| { StepKeepsSysInv(s, t.attempt, t.evidence); }
  }

  /** In any continuation a leaked private lock admits nobody, and who waits goes on waiting. */
  lemma {:induction false} LeakBlocksForEver(s: Sys, schedule: seq<Turn>, j: nat, i: nat)
    requires SysInv(s) && j < |s.attempts| && s.attempts[j].pc == Leaked && i < |s.attempts| && i != j
    ensures var u := AfterTurns(s, schedule);
            && u.attempts[j].pc == Leaked
            && u.attempts[i].pc !in {InAgent, CopyingPrivate, InPrivate, Leaked, IllegalMove}
            && (Waits(s.attempts[i].pc) ==> u.attempts[i] == s.attempts[i] && !Enabled(u, i))
    decreases |schedule|
  {
    LeakBlocks(s, j, i);
    if schedule != [] {
      LeakStays(s, schedule[0], j, i);
      LeakBlocksForEver(TakeTurn(s, schedule[0]), schedule[1..], j, i);
    }
  }

  const CLEAN: Evidence := Evidence(false, false, false, true, false, false)
  const BROKEN: Evidence := Evidence(false, false, false, true, false, true)

  lemma {:induction false} FirstTurn(s: Sys, t: Turn, rest: seq<Turn>)
    ensures AfterTurns(s, [t] + rest) == AfterTurns(TakeTurn(s, t), rest)
  {
  }

  /******* Termination of the composed system *******/

  function Rank(a: Attempt): nat {
    match a.pc
    case Start => 13 + a.checks
    case Copying => 12 + a.checks
    case WantAgent => 11 + a.checks
    case AwaitAgent => 10 + a.checks
    case InAgent => 9 + a.checks
    case Checking => 8 + a.checks
    case Collecting => 7
    case AwaitPrivate => 6
    case CopyingPrivate => 5
    case InPrivate => 4
    case Judging => 3
    case _ => 0
  }

  function TotalRank(attempts: seq<Attempt>): nat {
    if attempts == [] then 0 else Rank(attempts[0]) + TotalRank(attempts[1..])
  }

  lemma {:induction false} TotalRankUpdate(attempts: seq<Attempt>, i: nat, a: Attempt)
    requires i < |attempts|
    ensures TotalRank(attempts[i := a]) == TotalRank(attempts) - Rank(attempts[i]) + Rank(a)
  {
    if i == 0 {
      assert attempts[i := a][1..] == attempts[1..];
    } else {
      assert attempts[i := a][1..] == attempts[1..][i - 1 := a];
      TotalRankUpdate(attempts[1..], i - 1, a);
    }
  }

  lemma RankDrops(s: Sys, i: nat, e: Evidence)
    requires i < |s.attempts| && Enabled(s, i)
    ensures Rank(StepAttempt(s, i, e).attempts[i]) < Rank(s.attempts[i])
  {
  }

  lemma EnabledStepDecreases(s: Sys, i: nat, e: Evidence)
    requires i < |s.attempts|
    ensures Enabled(s, i) ==> TotalRank(StepAttempt(s, i, e).attempts) < TotalRank(s.attempts)
    ensures !Enabled(s, i) ==> StepAttempt(s, i, e) == s
  {
    if Enabled(s, i) {
      var u := StepAttempt(s, i, e);
      RankDrops(s, i, e);
      assert u.attempts == s.attempts[i := u.attempts[i]];
      TotalRankUpdate(s.attempts, i, u.attempts[i]);
    }
  }

  /** How many turns of a schedule really move something. */
  function Moves(s: Sys, schedule: seq<Turn>): nat
    decreases |schedule|
  {
    if schedule == [] then 0
    else (if schedule[0].attempt < |s.attempts| && Enabled(s, schedule[0].attempt) then 1 else 0)
         + Moves(TakeTurn(s, schedule[0]), schedule[1..])
  }

  /** Every schedule, fair or not, makes at most `TotalRank` moves: 13 per attempt and one per public check. */
  lemma {:induction false} MovesBounded(s: Sys, schedule: seq<Turn>)
    requires SysInv(s)
    ensures Moves(s, schedule) + TotalRank(AfterTurns(s, schedule).attempts) <= TotalRank(s.attempts)
    decreases |schedule|
  {
    if schedule != [] {
      var t := schedule[0];
      if t.attempt < |s.attempts| {
        StepKeepsSysInv(s, t.attempt, t.evidence);
        EnabledStepDecreases(s, t.attempt, t.evidence);
      }
      MovesBounded(TakeTurn(s, t), schedule[1..]);
    }
  }

  /******* Stranded attempts *******/

  /** Attempt `i` will never finish: no continuation moves it. */
  ghost predicate Stranded(s: Sys, i: nat)
    requires i < |s.attempts|
  {
    Unfinished(s.attempts[i].pc) && forall schedule :: AfterTurns(s, schedule).attempts[i] == s.attempts[i]
  }

  /** Past its last wait. */
  predicate PastWaiting(pc: Pc) {
    pc == Judging || pc == Returned || pc == Threw
  }

  /** Behind a leaked lock a clean turn takes an attempt nearer to its next wait. */
  lemma CleanTurn(s: Sys, j: nat, i: nat)
    requires SysInv(s) && j < |s.attempts| && s.attempts[j].pc == Leaked && i < |s.attempts| && i != j
    requires !PastWaiting(s.attempts[i].pc) && !Waits(s.attempts[i].pc)
    ensures var u := TakeTurn(s, Turn(i, CLEAN));
            && SysInv(u) && u.attempts[j].pc == Leaked && !PastWaiting(u.attempts[i].pc)
            && Rank(u.attempts[i]) < Rank(s.attempts[i])
  {
    LeakBlocks(s, j, i);
    LeakStays(s, Turn(i, CLEAN), j, i);
    LeakBlocks(TakeTurn(s, Turn(i, CLEAN)), j, i);
    RankDrops(s, i, CLEAN);
  }

  lemma {:induction false} TurnsConcat(s: Sys, a: seq<Turn>, b: seq<Turn>)
    ensures AfterTurns(s, a + b) == AfterTurns(AfterTurns(s, a), b)
    decreases |a|
  {
    if a == [] {
      assert a + b == b;
    } else {
      assert (a + b)[0] == a[0] && (a + b)[1..] == a[1..] + b;
      TurnsConcat(TakeTurn(s, a[0]), a[1..], b);
    }
  }

  lemma {:induction false} ReachesWait(s: Sys, j: nat, i: nat) returns (schedule: seq<Turn>)
    requires SysInv(s) && j < |s.attempts| && s.attempts[j].pc == Leaked && i < |s.attempts| && i != j
    requires !PastWaiting(s.attempts[i].pc)
    ensures Waits(AfterTurns(s, schedule).attempts[i].pc)
    ensures SysInv(AfterTurns(s, schedule)) && AfterTurns(s, schedule).attempts[j].pc == Leaked
    decreases Rank(s.attempts[i])
  {
    schedule := [];
    if !Waits(s.attempts[i].pc) {
      CleanTurn(s, j, i);
      var rest := ReachesWait(TakeTurn(s, Turn(i, CLEAN)), j, i);
      schedule := [Turn(i, CLEAN)] + rest;
      FirstTurn(s, Turn(i, CLEAN), rest);
    }
  }

  lemma WaitStrands(s: Sys, j: nat, i: nat)
    requires SysInv(s) && j < |s.attempts| && s.attempts[j].pc == Leaked && i < |s.attempts| && i != j
    requires Waits(s.attempts[i].pc)
    ensures Stranded(s, i)
  {
    forall schedule ensures AfterTurns(s, schedule).attempts[i] == s.attempts[i] {
      LeakBlocksForEver(s, schedule, j, i);
    }
  }

  lemma {:induction false} PastWaitingKept(s: Sys, schedule: seq<Turn>, i: nat)
    requires SysInv(s) && i < |s.attempts| && PastWaiting(s.attempts[i].pc)
    ensures PastWaiting(AfterTurns(s, schedule).attempts[i].pc)
    decreases |schedule|
  {
    if schedule != [] {
      var t := schedule[0];
      assert SysOk(s, i);
      if t.attempt < |s.attempts| {
        StepKeepsSysInv(s, t.attempt, t.evidence);
        assert SysOk(TakeTurn(s, t), i);
      }
      PastWaitingKept(TakeTurn(s, t), schedule[1..], i);
    }
  }

  lemma JudgingMoves(s: Sys, i: nat)
    requires i < |s.attempts| && s.attempts[i].pc == Judging
    ensures AfterTurns(s, [Turn(i, CLEAN)]).attempts[i].pc != Judging
  {
    FirstTurn(s, Turn(i, CLEAN), []);
    assert [Turn(i, CLEAN)] + [] == [Turn(i, CLEAN)];
  }

  /** Once `j` has leaked its lock, some continuation strands `i` if and only if `i` is not yet past its last wait. */
  lemma StrandedExactlyIf(s: Sys, j: nat, i: nat)
    requires SysInv(s) && j < |s.attempts| && s.attempts[j].pc == Leaked && i < |s.attempts| && i != j
    ensures (exists schedule :: Stranded(AfterTurns(s, schedule), i)) <==> !PastWaiting(s.attempts[i].pc)
  {
    if PastWaiting(s.attempts[i].pc) {
      forall schedule ensures !Stranded(AfterTurns(s, schedule), i) {
        var u := AfterTurns(s, schedule);
        PastWaitingKept(s, schedule, i);
        if u.attempts[i].pc == Judging { JudgingMoves(u, i); }
      }
    } else {
      var schedule := ReachesWait(s, j, i);
      WaitStrands(AfterTurns(s, schedule), j, i);
    }
  }

  /******* A leak strands the others from every start *******/

  /** Only attempt `i` has begun. */
  ghost predicate Alone(s: Sys, i: nat) {
    SysInv(s) && i < |s.attempts| && forall k | 0 <= k < |s.attempts| && k != i :: s.attempts[k].pc == Start
  }

  predicate Ahead(pc: Pc) {
    pc in {Start, Copying, WantAgent, InAgent, Checking, Collecting, CopyingPrivate, InPrivate}
  }

  lemma NoHolders(c: Coord, p: Phase)
    requires forall t :: !Effective(c, t)
    ensures Holders(c, p) == {}
  {
    forall t ensures t !in Holders(c, p) { assert !Effective(c, t); }
  }

  lemma AloneIdle(s: Sys, i: nat)
    requires Alone(s, i) && s.attempts[i].pc in {WantAgent, Collecting}
    ensures !s.coord.privateActive && s.coord.activeAgents == 0 && s.coord.waitingPrivate == []
  {
    assert SysOk(s, i);
    forall t ensures !Effective(s.coord, t) {
      if Known(s.coord, t) {
        assert SysOk(s, t.caller);
        assert t == Ticket(t.caller, t.phase);
      }
    }
    NobodyStranded(s.coord);
    NoHolders(s.coord, Agent);
    NoHolders(s.coord, Private);
  }

  lemma AloneTurn(s: Sys, i: nat)
    requires Alone(s, i) && Ahead(s.attempts[i].pc) && s.attempts[i].pc != InPrivate
    ensures var u := TakeTurn(s, Turn(i, CLEAN));
            Alone(u, i) && Ahead(u.attempts[i].pc) && Rank(u.attempts[i]) < Rank(s.attempts[i])
  {
    StepKeepsSysInv(s, i, CLEAN);
    RankDrops(s, i, CLEAN);
    if s.attempts[i].pc in {WantAgent, Collecting} { AloneIdle(s, i); }
    assert SysOk(TakeTurn(s, Turn(i, CLEAN)), i) && SysOk(s, i);
  }

  lemma {:induction false} ReachesLeak(s: Sys, i: nat) returns (schedule: seq<Turn>)
    requires Alone(s, i) && Ahead(s.attempts[i].pc)
    ensures Alone(AfterTurns(s, schedule), i) && AfterTurns(s, schedule).attempts[i].pc == Leaked
    decreases Rank(s.attempts[i])
  {
    var t := Turn(i, if s.attempts[i].pc == InPrivate then BROKEN else CLEAN);
    if s.attempts[i].pc == InPrivate {
      StepKeepsSysInv(s, i, BROKEN);
      schedule := [t] + [];
      FirstTurn(s, t, []);
    } else {
      AloneTurn(s, i);
      var rest := ReachesLeak(TakeTurn(s, t), i);
      schedule := [t] + rest;
      FirstTurn(s, t, rest);
    }
  }

  /** From every start, with any number of attempts and checks: any attempt can leak its lock and strand any other. */
  lemma LeakReachable(s: Sys, j: nat, i: nat)
    requires Initial(s) && j < |s.attempts| && i < |s.attempts| && i != j
    ensures exists schedule :: AfterTurns(s, schedule).attempts[j].pc == Leaked && Stranded(AfterTurns(s, schedule), i)
  {
    InitialInv(s);
    var first := ReachesLeak(s, j);
    var u := AfterTurns(s, first);
    var more := ReachesWait(u, j, i);
    TurnsConcat(s, first, more);
    WaitStrands(AfterTurns(u, more), j, i);
    assert AfterTurns(s, first + more) == AfterTurns(u, more);
  }

  /******* Quiet states *******/

  predicate Quiet(s: Sys) {
    forall i | 0 <= i < |s.attempts| :: !Enabled(s, i)
  }

  predicate AllOver(s: Sys) {
    forall i | 0 <= i < |s.attempts| :: s.attempts[i].pc == Returned || s.attempts[i].pc == Threw
  }

  /** Nothing can move exactly when no attempt is unfinished, or a lock has leaked and all unfinished attempts wait. */
  lemma QuietExactlyIf(s: Sys)
    requires SysInv(s)
    ensures Quiet(s) <==>
            forall i | 0 <= i < |s.attempts| && Unfinished(s.attempts[i].pc) :: Waits(s.attempts[i].pc) && !NoLeak(s)
  {
    forall i | 0 <= i < |s.attempts| && Unfinished(s.attempts[i].pc)
      ensures NoLeak(s) ==> !Quiet(s)
      ensures !NoLeak(s) ==> (Enabled(s, i) <==> !Waits(s.attempts[i].pc))
    {
      if NoLeak(s) {
        var k := SomeoneCanMove(s, i);
      } else {
        var j :| 0 <= j < |s.attempts| && s.attempts[j].pc == Leaked;
        LeakBlocks(s, j, i);
      }
    }
  }

  /** When nothing can move any more, every attempt has returned or thrown if and only if no clean-up failed. */
  lemma QuietMeansDone(s: Sys, schedule: seq<Turn>)
    requires Initial(s)
    ensures var u := AfterTurns(s, schedule); Quiet(u) ==> (AllOver(u) <==> !SomeCleanUpFails(s, schedule))
  {
    InitialInv(s);
    SysInvAlways(s, schedule);
    ScheduleLeaksExactlyIf(s, schedule);
    var u := AfterTurns(s, schedule);
    if Quiet(u) && NoLeak(u) {
      forall i | 0 <= i < |u.attempts| ensures u.attempts[i].pc == Returned || u.attempts[i].pc == Threw {
        assert SysOk(u, i);
        if Unfinished(u.attempts[i].pc) { var j := SomeoneCanMove(u, i); }
      }
    }
  }
}
