/**
 The two-factor rendezvous of `LoginAttempt`: the login task waits for a code, HTTP requests
 submit one, and every lock-protected section may interleave with every other.
 */
module TwoFactor {
  import opened Wrappers

  type Response = nat
  type Params = nat

  datatype Phase = Authenticating | AwaitingTwoFactor | Ready | Failed

  /**
   The shared object: `state`, `response` and the `Notify`, which holds one permit or one
   registered sleeper.
   */
  datatype Attempt = Attempt(phase: Phase, twoFactor: Option<Params>, response: Option<Response>, permit: bool, sleeper: bool)

  // ----- the atomic sections

  function AskFor(a: Attempt, params: Params): Attempt {
    a.(phase := AwaitingTwoFactor, twoFactor := Some(params))
  }

  /** `authenticating`, `ready` and `failed`. */
  function MoveTo(a: Attempt, phase: Phase): Attempt {
    a.(phase := phase, twoFactor := None)
  }

  function TakeResponse(a: Attempt): Attempt {
    a.(response := None)
  }

  /** `notified().await`: use the permit or go to sleep. */
  function AwaitNotification(a: Attempt): Attempt {
    if a.permit then a.(permit := false) else a.(sleeper := true)
  }

  function Store(a: Attempt, response: Response): Attempt {
    a.(response := Some(response))
  }

  /** `notify_one`: wake the sleeper or leave a permit. */
  function NotifyOne(a: Attempt): Attempt {
    if a.sleeper then a.(sleeper := false) else a.(permit := true)
  }

  /** `LoginAttempt`; each method is one section under one lock, or one use of the `Notify`. */
  class LoginAttempt {
    var phase: Phase
    var twoFactor: Option<Params>
    var response: Option<Response>
    var permit: bool
    var sleeper: bool
    var events: seq<nat>

    function View(): Attempt
      reads this
    {
      Attempt(phase, twoFactor, response, permit, sleeper)
    }

    constructor ()
      ensures View() == NewAttempt() && events == []
    {
      phase, twoFactor, response, permit, sleeper, events := Authenticating, None, None, false, false, [];
    }

    /** The head of `wait_for_two_factor`. */
    method BeginWait(params: Params)
      modifies this
      ensures View() == AskFor(old(View()), params) && events == old(events)
    {
      phase, twoFactor := AwaitingTwoFactor, Some(params);
    }

    /** One turn of the waiting loop: take the response if there is one. */
    method Poll() returns (taken: Option<Response>)
      modifies this
      ensures taken == old(response) && View() == TakeResponse(old(View())) && events == old(events)
    {
      taken := response;
      response := None;
    }

    method Park() returns (asleep: bool)
      modifies this
      ensures asleep == !old(permit) && View() == AwaitNotification(old(View())) && events == old(events)
    {
      asleep := !permit;
      if permit {
        permit := false;
      } else {
        sleeper := true;
      }
    }

    /** The first section of `submit`: only one caller leaves `AwaitingTwoFactor`. */
    method Claim() returns (accepted: bool)
      modifies this
      ensures accepted <==> old(phase) == AwaitingTwoFactor
      ensures View() == (if accepted then MoveTo(old(View()), Authenticating) else old(View())) && events == old(events)
    {
      accepted := phase == AwaitingTwoFactor;
      if accepted {
        phase, twoFactor := Authenticating, None;
      }
    }

    method StoreResponse(r: Response)
      modifies this
      ensures View() == Store(old(View()), r) && events == old(events)
    {
      response := Some(r);
    }

    method Notify()
      modifies this
      ensures View() == NotifyOne(old(View())) && events == old(events)
    {
      if sleeper {
        sleeper := false;
      } else {
        permit := true;
      }
    }

    /** `authenticating`, `ready` or `failed`. */
    method Finish(to: Phase)
      modifies this
      ensures View() == MoveTo(old(View()), to) && events == old(events)
    {
      phase, twoFactor := to, None;
    }

    /** `submit` when nothing comes between its sections: an accepted response wakes the sleeper, if there is one. */
    method Submit(r: Response) returns (accepted: bool)
      modifies this
      ensures accepted <==> old(phase) == AwaitingTwoFactor
      ensures accepted ==> phase == Authenticating && twoFactor == None && response == Some(r)
      ensures accepted ==> !sleeper && permit == (old(permit) || !old(sleeper))
      ensures !accepted ==> View() == old(View())
      ensures events == old(events)
    {
      accepted := Claim();
      if accepted {
        StoreResponse(r);
        Notify();
      }
    }

    /** Several requests in a row: the first finds the challenge open, the others do not. */
    method SubmitInTurn(rs: seq<Response>) returns (accepted: seq<bool>)
      modifies this
      ensures |accepted| == |rs|
      ensures forall i :: 0 <= i < |rs| ==> (accepted[i] <==> i == 0 && old(phase) == AwaitingTwoFactor)
      ensures rs == [] || old(phase) != AwaitingTwoFactor ==> View() == old(View())
      ensures rs != [] && old(phase) == AwaitingTwoFactor ==>
                View() == Attempt(Authenticating, None, Some(rs[0]), old(permit) || !old(sleeper), false)
      ensures events == old(events)
    {
      accepted := [];
      for i := 0 to |rs|
        invariant |accepted| == i
        invariant forall k :: 0 <= k < i ==> (accepted[k] <==> k == 0 && old(phase) == AwaitingTwoFactor)
        invariant i == 0 || old(phase) != AwaitingTwoFactor ==> View() == old(View())
        invariant i > 0 && old(phase) == AwaitingTwoFactor ==>
                    View() == Attempt(Authenticating, None, Some(rs[0]), old(permit) || !old(sleeper), false)
        invariant events == old(events)
      {
        var one := Submit(rs[i]);
        accepted := accepted + [one];
      }
    }

    /**
     `wait_for_two_factor`, with the requests that arrive `early`, before it first looks for a
     response, and `late`, once it sleeps or has gone on. It starts with no response left over, as
     `OneToken` says of every login that is at work. A permit left over only costs it one more turn;
     it returns the first response that arrives, refuses all others, and sleeps if none does.
     */
    method WaitForTwoFactor(params: Params, early: seq<Response>, late: seq<Response>)
      returns (accepted: seq<bool>, taken: Option<Response>)
      requires response.None? && !sleeper
      modifies this
      ensures taken == if early + late == [] then None else Some((early + late)[0])
      ensures |accepted| == |early + late| && forall i :: 0 <= i < |accepted| ==> (accepted[i] <==> i == 0)
      ensures View() == if taken.Some? then Attempt(Authenticating, None, None, early != [], false)
                        else Attempt(AwaitingTwoFactor, Some(params), None, false, true)
      ensures events == old(events)
    {
      BeginWait(params);
      accepted := SubmitInTurn(early);
      taken := Poll();
      while taken.None?
        invariant |accepted| == |early| || (early == [] && |accepted| == |late|)
        invariant taken == if accepted == [] then None else Some((early + late)[0])
        invariant accepted == [] ==> early == [] && View() == Attempt(AwaitingTwoFactor, Some(params), None, permit, false)
        invariant accepted != [] ==> View() == Attempt(Authenticating, None, None, early != [], false)
        invariant forall i :: 0 <= i < |accepted| ==> (accepted[i] <==> i == 0)
        invariant events == old(events)
        decreases taken.None?, permit
      {
        var asleep := Park();
        if asleep {
          accepted := SubmitInTurn(late);
          if sleeper {
            return;
          }
        }
        taken := Poll();
      }
      if |accepted| < |early + late| {
        var refused := SubmitInTurn(late);
        accepted := accepted + refused;
      }
    }

    /** The diagnostic history keeps the last events, oldest first. */
    method RecordPostTwoFactorEvent(event: nat, ghost all: seq<nat>)
      requires events == LastEvents(all)
      modifies this`events
      ensures events == LastEvents(all + [event])
    {
      if |events| == MAX_EVENTS {
        events := events[1..];
      }
      events := events + [event];
    }
  }

  const MAX_EVENTS: nat := 32

  function LastEvents(all: seq<nat>): (kept: seq<nat>)
    ensures |kept| <= MAX_EVENTS && |kept| <= |all| && kept == all[|all| - |kept|..]
  {
    if |all| <= MAX_EVENTS then all else all[|all| - MAX_EVENTS..]
  }

  function NewAttempt(): Attempt {
    Attempt(Authenticating, None, None, false, false)
  }

  // ----- every interleaving

  /** Where the login task is; `Gone` once its five minutes are over or it has finished. */
  datatype Waiter = Working | Polling | Parking | Sleeping | Gone

  /** A submit between its sections. */
  datatype Submit = Claimed(challenge: nat, response: Response) | Stored(challenge: nat)

  /** `lost` says that the submit accepted for the current challenge was dropped before it stored its response. */
  datatype System = System(
    attempt: Attempt, waiter: Waiter, challenge: nat, submits: map<nat, Submit>,
    accepted: seq<(nat, Response)>, returned: seq<(nat, Response)>, lost: bool)

  datatype Action =
    | StartChallenge(params: Params)
    | PollOnce
    | ParkOnce
    | ClaimBy(caller: nat, response: Response)
    | StoreBy(caller: nat)
    | NotifyBy(caller: nat)
    | DropBy(caller: nat)
    | MoveOn(phase: Phase)
    | TimeOut
    | ReportFailure

  function Init(): System {
    System(NewAttempt(), Working, 0, map[], [], [], false)
  }

  /** What one step does; a step that is not enabled changes nothing. */
  function Next(s: System, action: Action): System {
    var a := s.attempt;
    match action
    case StartChallenge(params) =>
      if s.waiter != Working then s
      else s.(attempt := AskFor(a, params), waiter := Polling, challenge := s.challenge + 1, lost := false)
    case PollOnce =>
      if s.waiter != Polling then s
      else if a.response.None? then s.(waiter := Parking)
      else s.(attempt := TakeResponse(a), waiter := Working, returned := s.returned + [(s.challenge, a.response.value)])
    case ParkOnce =>
      if s.waiter != Parking then s
      else s.(attempt := AwaitNotification(a), waiter := if a.permit then Polling else Sleeping)
    case ClaimBy(caller, response) =>
      if caller in s.submits || a.phase != AwaitingTwoFactor then s
      else s.(attempt := MoveTo(a, Authenticating),
              submits := s.submits[caller := Claimed(s.challenge, response)],
              accepted := s.accepted + [(s.challenge, response)])
    case StoreBy(caller) =>
      if caller !in s.submits || !s.submits[caller].Claimed? then s
      else s.(attempt := Store(a, s.submits[caller].response),
              submits := s.submits[caller := Stored(s.submits[caller].challenge)])
    case NotifyBy(caller) =>
      if caller !in s.submits || !s.submits[caller].Stored? then s
      else s.(attempt := NotifyOne(a), submits := s.submits - {caller},
              waiter := if a.sleeper && s.waiter == Sleeping then Polling else s.waiter)
    case DropBy(caller) =>
      // Its client is gone while it waits for the response's lock.
      if caller !in s.submits || !s.submits[caller].Claimed? then s
      else s.(submits := s.submits - {caller}, lost := true)
    case MoveOn(phase) =>
      if s.waiter != Working || phase == AwaitingTwoFactor then s
      else s.(attempt := MoveTo(a, phase), waiter := if phase == Authenticating then Working else Gone)
    case TimeOut =>
      // The waiting future is dropped, and with it its place in the `Notify`.
      s.(attempt := a.(sleeper := false), waiter := Gone)
    case ReportFailure =>
      if s.waiter != Gone then s else s.(attempt := MoveTo(a, Failed))
  }

  function Run(s: System, actions: seq<Action>): System {
    if actions == [] then s else Next(Run(s, actions[..|actions| - 1]), actions[|actions| - 1])
  }

  predicate Waiting(w: Waiter) {
    w in {Polling, Parking, Sleeping}
  }

  ghost predicate SomeClaimed(s: System) {
    exists c :: c in s.submits && s.submits[c].Claimed?
  }

  ghost predicate SomeStored(s: System) {
    exists c :: c in s.submits && s.submits[c].Stored? && s.submits[c].challenge == s.challenge
  }

  /** The current challenge is open, claimed, answered or lost: never two of these at once. */
  ghost predicate OneToken(s: System) {
    && (s.attempt.phase == AwaitingTwoFactor ==> !SomeClaimed(s) && s.attempt.response.None?)
    && (SomeClaimed(s) ==> s.attempt.response.None?)
    && (forall c, d :: c in s.submits && d in s.submits && s.submits[c].Claimed? && s.submits[d].Claimed? ==> c == d)
    && (s.waiter == Working ==>
          s.attempt.phase != AwaitingTwoFactor && !SomeClaimed(s) && s.attempt.response.None? && !s.lost)
    && (s.lost ==> s.attempt.phase != AwaitingTwoFactor && !SomeClaimed(s) && s.attempt.response.None?)
    && (Waiting(s.waiter) ==>
          s.attempt.phase == AwaitingTwoFactor || SomeClaimed(s) || s.attempt.response.Some? || s.lost)
  }

  ghost predicate Increasing(log: seq<(nat, Response)>) {
    forall i, j :: 0 <= i < j < |log| ==> log[i].0 < log[j].0
  }

  /** Who was accepted for which challenge, and that nothing else can be returned. */
  ghost predicate Ledger(s: System) {
    && Increasing(s.accepted) && Increasing(s.returned)
    && (forall i :: 0 <= i < |s.accepted| ==> s.accepted[i].0 <= s.challenge)
    && (forall i :: 0 <= i < |s.returned| ==> s.returned[i] in s.accepted && s.returned[i].0 <= s.challenge)
    && (s.attempt.phase == AwaitingTwoFactor ==> forall i :: 0 <= i < |s.accepted| ==> s.accepted[i].0 < s.challenge)
    && (Waiting(s.waiter) ==> forall i :: 0 <= i < |s.returned| ==> s.returned[i].0 < s.challenge)
    && (forall c :: c in s.submits && s.submits[c].Claimed? ==>
          s.submits[c].challenge == s.challenge && (s.challenge, s.submits[c].response) in s.accepted)
    && (s.attempt.response.Some? ==> (s.challenge, s.attempt.response.value) in s.accepted)
  }

  /** No wake-up is lost: a response waits with a permit or with a notifier still to come. */
  ghost predicate WakeUpDue(s: System) {
    && (s.attempt.sleeper <==> s.waiter == Sleeping)
    && (s.waiter == Sleeping ==> !s.attempt.permit)
    && (s.attempt.response.Some? && s.waiter == Parking ==> s.attempt.permit || SomeStored(s))
    && (s.attempt.response.Some? && s.waiter == Sleeping ==> SomeStored(s))
  }

  ghost predicate Inv(s: System) {
    OneToken(s) && Ledger(s) && WakeUpDue(s)
  }

  lemma OneTokenKept(s: System, action: Action)
    requires Inv(s)
    ensures OneToken(Next(s, action))
  {
    var t := Next(s, action);
    match action {
      case ClaimBy(caller, response) =>
        if t != s {
          assert t.submits[caller].Claimed?;
        }
      case StoreBy(caller) =>
        if t != s {
          assert s.submits[caller].Claimed?;
          assert forall c :: c in t.submits ==> !t.submits[c].Claimed?;
        }
      case NotifyBy(caller) =>
        if t != s {
          assert forall c :: c in t.submits ==> c in s.submits && t.submits[c] == s.submits[c];
          if SomeClaimed(s) {
            var c :| c in s.submits && s.submits[c].Claimed?;
            assert c in t.submits;
          }
        }
      case DropBy(caller) =>
        if t != s {
          assert s.submits[caller].Claimed?;
          assert forall c :: c in t.submits ==> !t.submits[c].Claimed?;
        }
      case _ =>
        assert t.submits == s.submits;
    }
  }

  lemma LogGrows(log: seq<(nat, Response)>, entry: (nat, Response))
    requires Increasing(log) && forall i :: 0 <= i < |log| ==> log[i].0 < entry.0
    ensures Increasing(log + [entry])
  {
  }

  lemma LedgerClaim(s: System, caller: nat, response: Response)
    requires Inv(s)
    ensures Ledger(Next(s, ClaimBy(caller, response)))
  {
    var t := Next(s, ClaimBy(caller, response));
    if t != s {
      LogGrows(s.accepted, (s.challenge, response));
      assert t.accepted[|s.accepted|] == (s.challenge, response);
      assert forall e :: e in s.accepted ==> e in t.accepted;
    }
  }

  lemma LedgerPoll(s: System)
    requires Inv(s)
    ensures Ledger(Next(s, PollOnce))
  {
    if s.attempt.response.Some? && s.waiter == Polling {
      LogGrows(s.returned, (s.challenge, s.attempt.response.value));
    }
  }

  /** The later sections of a submit, and its drop. */
  lemma LedgerSubmit(s: System, action: Action)
    requires Inv(s) && (action.StoreBy? || action.NotifyBy? || action.DropBy?)
    ensures Ledger(Next(s, action))
  {
    hide WakeUpDue, SomeStored, OneToken;
    if action.StoreBy? && Next(s, action) != s {
      assert s.submits[action.caller].Claimed?;
    }
  }

  lemma LedgerKept(s: System, action: Action)
    requires Inv(s)
    ensures Ledger(Next(s, action))
  {
    hide WakeUpDue, SomeStored;
    var t := Next(s, action);
    match action {
      case ClaimBy(caller, response) => LedgerClaim(s, caller, response);
      case PollOnce => LedgerPoll(s);
      case StoreBy(_) => LedgerSubmit(s, action);
      case NotifyBy(_) => LedgerSubmit(s, action);
      case DropBy(_) => LedgerSubmit(s, action);
      case StartChallenge(_) =>
        if t != s {
          assert !SomeClaimed(s);
          forall i | 0 <= i < |s.accepted| ensures s.accepted[i].0 < t.challenge {
          }
        }
      case _ =>
    }
  }

  lemma WakeUpKept(s: System, action: Action)
    requires Inv(s)
    ensures WakeUpDue(Next(s, action))
  {
    var t := Next(s, action);
    match action {
      case StoreBy(caller) =>
        if t != s {
          assert t.submits[caller].Stored? && t.submits[caller].challenge == t.challenge;
        }
      case ClaimBy(caller, response) =>
        if t != s && SomeStored(s) {
          var c :| c in s.submits && s.submits[c].Stored? && s.submits[c].challenge == s.challenge;
          assert c in t.submits && t.submits[c] == s.submits[c];
        }
      case NotifyBy(caller) =>
      case DropBy(caller) =>
        if t != s && SomeStored(s) {
          var c :| c in s.submits && s.submits[c].Stored? && s.submits[c].challenge == s.challenge;
          assert c in t.submits && t.submits[c] == s.submits[c];
        }
      case _ =>
        assert t.submits == s.submits;
    }
  }

  lemma {:induction false} InvAlways(actions: seq<Action>)
    ensures Inv(Run(Init(), actions))
    decreases |actions|
  {
    if actions != [] {
      var n := |actions| - 1;
      InvAlways(actions[..n]);
      OneTokenKept(Run(Init(), actions[..n]), actions[n]);
      LedgerKept(Run(Init(), actions[..n]), actions[n]);
      WakeUpKept(Run(Init(), actions[..n]), actions[n]);
    }
  }

  lemma LogDistinct(log: seq<(nat, Response)>)
    requires Increasing(log)
    ensures forall i, j :: 0 <= i < |log| && 0 <= j < |log| && log[i].0 == log[j].0 ==> i == j
  {
  }

  /**
   In every interleaving a challenge accepts at most one response, its waiter returns that one,
   and a stored response never sits beside a sleeper nobody will wake.
   */
  lemma {:induction false} Rendezvous(actions: seq<Action>)
    ensures var s := Run(Init(), actions);
            && (forall i, j :: 0 <= i < |s.accepted| && 0 <= j < |s.accepted| && s.accepted[i].0 == s.accepted[j].0 ==> i == j)
            && (forall i :: 0 <= i < |s.returned| ==>
                  s.returned[i] in s.accepted
                  && forall j :: 0 <= j < |s.accepted| && s.accepted[j].0 == s.returned[i].0 ==> s.accepted[j] == s.returned[i])
            && (forall i, j :: 0 <= i < |s.returned| && 0 <= j < |s.returned| && s.returned[i].0 == s.returned[j].0 ==> i == j)
            && (s.attempt.response.Some? && s.waiter == Sleeping ==> SomeStored(s))
  {
    InvAlways(actions);
    var s := Run(Init(), actions);
    LogDistinct(s.accepted);
    LogDistinct(s.returned);
    forall i | 0 <= i < |s.returned|
      ensures forall j :: 0 <= j < |s.accepted| && s.accepted[j].0 == s.returned[i].0 ==> s.accepted[j] == s.returned[i]
    {
      assert s.returned[i] in s.accepted;
      var k: nat :| k < |s.accepted| && s.accepted[k] == s.returned[i];
    }
  }

  /** From any state with an answered challenge and a waiter, letting the pending threads run returns the answer. */
  lemma {:induction false} AnswerIsDelivered(actions: seq<Action>) returns (finish: seq<Action>)
    requires var s := Run(Init(), actions);
             s.attempt.response.Some? && Waiting(s.waiter)
    ensures |finish| <= 3
    ensures var s := Run(Init(), actions);
            Run(s, finish).returned == s.returned + [(s.challenge, s.attempt.response.value)]
  {
    InvAlways(actions);
    var s := Run(Init(), actions);
    var wake: seq<Action> := [];
    if s.waiter == Polling {
      finish := [PollOnce];
    } else if s.waiter == Sleeping {
      var c :| c in s.submits && s.submits[c].Stored? && s.submits[c].challenge == s.challenge;
      finish := [NotifyBy(c), PollOnce];
      assert finish[..1] == [NotifyBy(c)];
      assert [NotifyBy(c)][..0] == [];
      assert Run(s, [NotifyBy(c)]) == Next(s, NotifyBy(c));
    } else if s.attempt.permit {
      finish := [ParkOnce, PollOnce];
      assert finish[..1] == [ParkOnce];
      assert Run(s, [ParkOnce]) == Next(s, ParkOnce);
    } else {
      var c :| c in s.submits && s.submits[c].Stored? && s.submits[c].challenge == s.challenge;
      finish := [NotifyBy(c), ParkOnce, PollOnce];
      assert finish[..2] == [NotifyBy(c), ParkOnce];
      assert [NotifyBy(c), ParkOnce][..1] == [NotifyBy(c)];
      assert Run(s, [NotifyBy(c)]) == Next(s, NotifyBy(c));
      assert Run(s, [NotifyBy(c), ParkOnce]) == Next(Next(s, NotifyBy(c)), ParkOnce);
    }
  }

  // ----- a submit that is dropped half way

  /** A continuation gives the login task a response to the current challenge. */
  ghost predicate MayBeAnswered(s: System) {
    exists rest: seq<Action> :: (exists r :: Run(s, rest).returned == s.returned + [(s.challenge, r)])
  }

  lemma RunOf(s: System, before: seq<Action>, action: Action)
    ensures Run(s, before + [action]) == Next(Run(s, before), action)
  {
    assert (before + [action])[..|before|] == before;
  }

  lemma {:induction false} RunJoins(s: System, first: seq<Action>, rest: seq<Action>)
    ensures Run(s, first + rest) == Run(Run(s, first), rest)
    decreases |rest|
  {
    hide Next;
    if rest == [] {
      assert first + rest == first;
    } else {
      var n := |rest| - 1;
      RunJoins(s, first, rest[..n]);
      assert (first + rest)[..|first| + n] == first + rest[..n];
    }
  }

  lemma LostStep(s: System, action: Action)
    requires Inv(s) && s.lost
    ensures Next(s, action).lost && Next(s, action).returned == s.returned
  {
  }

  lemma {:induction false} LostForEver(actions: seq<Action>, rest: seq<Action>)
    requires Run(Init(), actions).lost
    ensures var s := Run(Init(), actions); Run(s, rest).lost && Run(s, rest).returned == s.returned
    decreases |rest|
  {
    if rest != [] {
      var before := rest[..|rest| - 1];
      LostForEver(actions, before);
      RunJoins(Init(), actions, before);
      InvAlways(actions + before);
      hide Next, Inv;
      LostStep(Run(Run(Init(), actions), before), rest[|rest| - 1]);
    }
  }

  /** Some caller is not in the middle of a submit. */
  lemma {:induction false} FreshCaller(callers: set<nat>) returns (caller: nat)
    ensures forall c :: c in callers ==> c < caller
    decreases callers
  {
    if callers == {} {
      caller := 0;
    } else {
      var c: nat :| c in callers;
      var rest := FreshCaller(callers - {c});
      caller := if c < rest then rest else c + 1;
      forall d | d in callers ensures d < caller {
        assert d == c || d in callers - {c};
      }
    }
  }

  lemma ClaimOpens(s: System, caller: nat, response: Response)
    requires s.attempt.phase == AwaitingTwoFactor && caller !in s.submits
    ensures
      var t := Next(s, ClaimBy(caller, response));
      && caller in t.submits && t.submits[caller].Claimed?
      && t.waiter == s.waiter && t.challenge == s.challenge && t.returned == s.returned
  {
  }

  lemma StoreAnswers(s: System, caller: nat)
    requires caller in s.submits && s.submits[caller].Claimed?
    ensures
      var t := Next(s, StoreBy(caller));
      t.attempt.response.Some? && t.waiter == s.waiter && t.challenge == s.challenge && t.returned == s.returned
  {
  }

  /** Claim an open challenge and store the response, or finish a claim that is under way. */
  lemma StoreAnswer(s: System) returns (steps: seq<Action>)
    requires s.attempt.phase == AwaitingTwoFactor || SomeClaimed(s)
    ensures
      var t := Run(s, steps);
      t.attempt.response.Some? && t.waiter == s.waiter && t.challenge == s.challenge && t.returned == s.returned
  {
    hide Next;
    steps := [];
    assert Run(s, []) == s;
    var caller;
    if SomeClaimed(s) {
      caller :| caller in s.submits && s.submits[caller].Claimed?;
    } else {
      caller := FreshCaller(s.submits.Keys);
      ClaimOpens(s, caller, 0);
      RunOf(s, [], ClaimBy(caller, 0));
      steps := [] + [ClaimBy(caller, 0)];
    }
    StoreAnswers(Run(s, steps), caller);
    RunOf(s, steps, StoreBy(caller));
    steps := steps + [StoreBy(caller)];
  }

  /** In every reachable state a waiting login can still be answered exactly if the accepted submit was not dropped. */
  lemma DroppedSubmitStrandsTheLogin(actions: seq<Action>)
    requires Waiting(Run(Init(), actions).waiter)
    ensures MayBeAnswered(Run(Init(), actions)) <==> !Run(Init(), actions).lost
  {
    InvAlways(actions);
    var s := Run(Init(), actions);
    if s.lost {
      forall rest: seq<Action>, r ensures Run(s, rest).returned != s.returned + [(s.challenge, r)] {
        LostForEver(actions, rest);
      }
    } else {
      var steps: seq<Action> := [];
      assert Run(s, []) == s;
      if s.attempt.response.None? {
        steps := StoreAnswer(s);
      }
      hide Next, Inv, Waiting;
      RunJoins(Init(), actions, steps);
      var finish := AnswerIsDelivered(actions + steps);
      RunJoins(s, steps, finish);
      assert Run(s, steps + finish).returned == s.returned + [(s.challenge, Run(s, steps).attempt.response.value)];
    }
  }

  /** A dropped submit is reached: challenge, accepted claim, drop. */
  lemma DroppedSubmitIsReached()
    ensures exists actions: seq<Action> :: Run(Init(), actions).lost && Waiting(Run(Init(), actions).waiter)
  {
    var asked := Next(Init(), StartChallenge(0));
    var claimed := Next(asked, ClaimBy(1, 7));
    var dropped := Next(claimed, DropBy(1));
    assert claimed.submits[1].Claimed? && dropped.lost && Waiting(dropped.waiter);
    hide Next;
    RunOf(Init(), [], StartChallenge(0));
    RunOf(Init(), [StartChallenge(0)], ClaimBy(1, 7));
    RunOf(Init(), [StartChallenge(0), ClaimBy(1, 7)], DropBy(1));
    assert [] + [StartChallenge(0)] == [StartChallenge(0)];
    assert [StartChallenge(0)] + [ClaimBy(1, 7)] == [StartChallenge(0), ClaimBy(1, 7)];
    assert Run(Init(), [StartChallenge(0), ClaimBy(1, 7)] + [DropBy(1)]) == dropped;
  }
}
