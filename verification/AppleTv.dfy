/**
 The Apple TV pairing session: requests and pairing tasks share one slot, a one-shot channel
 carries the PIN, and a task may keep stepping after it was told to abort.
 */
module AppleTv {
  import opened Wrappers

  type Id = nat
  type Pin = nat
  type Name = nat
  type Failure = nat

  datatype Phase = Connecting | AwaitingPin | Verifying | Ready | Failed | Cancelled | Expired

  predicate IsTerminal(phase: Phase) {
    phase in {Ready, Failed, Cancelled, Expired}
  }

  function Rank(phase: Phase): nat {
    match phase
    case Connecting => 0
    case AwaitingPin => 1
    case Verifying => 2
    case _ => 3
  }

  /** `pin` says that the session still holds the sending half of its one-shot channel. */
  datatype Session = Session(id: Id, phase: Phase, name: Name, expiresAt: nat, failure: Option<Failure>, verified: bool, pin: bool)

  type Slot = Option<Session>

  predicate Live(slot: Slot) {
    slot.Some? && !IsTerminal(slot.value.phase)
  }

  predicate Holds(slot: Slot, id: Id) {
    slot.Some? && slot.value.id == id
  }

  // ----- the sections under the session lock

  function ExpireIfDue(slot: Slot, now: nat): Slot {
    if Live(slot) && now >= slot.value.expiresAt then Some(slot.value.(phase := Expired, pin := false)) else slot
  }

  function CancelSession(slot: Slot, id: Id): Slot {
    if Live(slot) && Holds(slot, id) then Some(slot.value.(phase := Cancelled, pin := false)) else slot
  }

  predicate TakesPin(slot: Slot, id: Id, now: nat) {
    Holds(slot, id) && slot.value.phase == AwaitingPin && now < slot.value.expiresAt && slot.value.pin
  }

  /** The one-shot send succeeds when the receiving half is still alive. */
  function Submit(slot: Slot, id: Id, now: nat, receiving: bool): Slot {
    if !Holds(slot, id) then slot
    else if TakesPin(slot, id, now) then Some(slot.value.(pin := false, phase := if receiving then Verifying else AwaitingPin))
    else ExpireIfDue(slot, now)
  }

  function SetPhase(slot: Slot, id: Id, phase: Phase, failure: Option<Failure>): Slot {
    if !Live(slot) || !Holds(slot, id) || (phase == AwaitingPin && !slot.value.pin) then slot
    else Some(slot.value.(phase := phase, failure := failure, pin := slot.value.pin && !IsTerminal(phase)))
  }

  function Finish(slot: Slot, id: Id, identity: Option<Name>): Slot {
    if !Live(slot) || !Holds(slot, id) then slot
    else Some(slot.value.(phase := Ready, verified := identity.Some?,
                          name := if identity.Some? then identity.value else slot.value.name))
  }

  datatype PairingError = UnknownTarget | Busy | NotFound | Terminal | NotAwaitingPin

  class AppleTv {
    var session: Slot

    constructor ()
      ensures session == None
    {
      session := None;
    }

    method Expire(now: nat)
      modifies this
      ensures session == ExpireIfDue(old(session), now)
      ensures session == if Live(old(session)) && now >= old(session).value.expiresAt
                         then Some(old(session).value.(phase := Expired, pin := false)) else old(session)
    {
      if session.Some? && !IsTerminal(session.value.phase) && now >= session.value.expiresAt {
        session := Some(session.value.(phase := Expired, pin := false));
      }
    }

    /** `target` is what the last discovery knows under the requested identifier. */
    method Start(target: Option<Name>, id: Id, now: nat, lifetime: nat) returns (r: Result<Session, PairingError>)
      modifies this
      ensures r == Err(UnknownTarget) <==> target.None?
      ensures r == Err(Busy) <==> target.Some? && Live(old(session)) && now < old(session).value.expiresAt
      ensures r.Ok? ==> session == Some(r.value) && r.value == Session(id, Connecting, target.value, now + lifetime, None, false, true)
      ensures r.Err? ==> session == old(session)
    {
      if target.None? {
        return Err(UnknownTarget);
      }
      Expire(now);
      if session.Some? && !IsTerminal(session.value.phase) {
        return Err(Busy);
      }
      var started := Session(id, Connecting, target.value, now + lifetime, None, false, true);
      session := Some(started);
      return Ok(started);
    }

    method Status(id: Id, now: nat) returns (r: Result<Session, PairingError>)
      modifies this
      ensures r.Ok? <==> Holds(old(session), id)
      ensures session == if Holds(old(session), id) then ExpireIfDue(old(session), now) else old(session)
      ensures Holds(old(session), id) ==>
                r == Ok(if Live(old(session)) && now >= old(session).value.expiresAt
                        then old(session).value.(phase := Expired, pin := false) else old(session).value)
      ensures r == if Holds(old(session), id) then Ok(session.value) else Err(NotFound)
    {
      if session.None? || session.value.id != id {
        return Err(NotFound);
      }
      Expire(now);
      return Ok(session.value);
    }

    /** `receiving` says whether the pairing task still holds the receiving half. */
    method SubmitPin(id: Id, now: nat, receiving: bool) returns (r: Result<Session, PairingError>)
      modifies this
      ensures session == Submit(old(session), id, now, receiving)
      ensures r.Ok? <==> TakesPin(old(session), id, now) && receiving
      ensures r.Ok? ==> session == Some(r.value) && r.value.phase == Verifying
      ensures r == Err(Terminal) <==> TakesPin(old(session), id, now) && !receiving
      ensures r == Err(NotFound) <==> !Holds(old(session), id)
      ensures Holds(old(session), id) && Live(old(session)) && now >= old(session).value.expiresAt ==>
                r == Err(NotAwaitingPin) && session == Some(old(session).value.(phase := Expired, pin := false))
    {
      if session.None? || session.value.id != id {
        return Err(NotFound);
      }
      Expire(now);
      if session.value.phase != AwaitingPin {
        return Err(NotAwaitingPin);
      }
      if !session.value.pin {
        return Err(NotAwaitingPin);
      }
      session := Some(session.value.(pin := false));
      if !receiving {
        return Err(Terminal);
      }
      session := Some(session.value.(phase := Verifying));
      return Ok(session.value);
    }

    method Cancel(id: Id) returns (r: Result<(), PairingError>)
      modifies this
      ensures session == CancelSession(old(session), id)
      ensures r == Ok(()) <==> Live(old(session)) && Holds(old(session), id)
      ensures r == Ok(()) ==> session == Some(old(session).value.(phase := Cancelled, pin := false))
      ensures r.Err? ==> session == old(session)
      ensures r == Err(NotFound) <==> !Holds(old(session), id)
    {
      if session.None? || session.value.id != id {
        return Err(NotFound);
      }
      if IsTerminal(session.value.phase) {
        return Err(Terminal);
      }
      session := Some(session.value.(phase := Cancelled, pin := false));
      return Ok(());
    }

    method SetTaskPhase(id: Id, phase: Phase, failure: Option<Failure>)
      modifies this
      ensures session == SetPhase(old(session), id, phase, failure)
      ensures session != old(session) ==> Live(old(session)) && session.Some? && session.value.id == id && session.value.phase == phase
      ensures Live(old(session)) && Holds(old(session), id) && (phase == AwaitingPin ==> old(session).value.pin) ==>
                session.value.phase == phase && session.value.failure == failure
    {
      if session.Some? && session.value.id == id && !IsTerminal(session.value.phase) {
        if phase == AwaitingPin && !session.value.pin {
          return;
        }
        session := Some(session.value.(phase := phase, failure := failure));
        if IsTerminal(phase) {
          session := Some(session.value.(pin := false));
        }
      }
    }

    /** The last section of `run_pairing`. */
    method FinishPairing(id: Id, identity: Option<Name>)
      modifies this
      ensures session == Finish(old(session), id, identity)
      ensures Live(old(session)) && Holds(old(session), id) ==> session.value == old(session).value.(phase := Ready, verified := identity.Some?,
                                                        name := if identity.Some? then identity.value else old(session).value.name)
      ensures !(Live(old(session)) && Holds(old(session), id)) ==> session == old(session)
    {
      if session.Some? && session.value.id == id && !IsTerminal(session.value.phase) {
        session := Some(session.value.(phase := Ready, verified := identity.Some?));
        if identity.Some? {
          session := Some(session.value.(name := identity.value));
        }
      }
    }
  }

  // ----- every interleaving

  /** `Stopping` is between the end of the handshake and the report of its failure. */
  datatype Pc = Pairing | Asking | Waiting | Stopping(failure: Failure) | Paired | Identifying | Done

  /**
   A pairing task. `channel` says that it still holds the receiving half, `mail` is the PIN in the
   channel, and `answers` is what its PIN callback returned, `None` being the empty PIN.
   */
  datatype Task = Task(pc: Pc, channel: bool, mail: Option<Pin>, answers: seq<Option<Pin>>)

  datatype Sent = Sent(id: Id, pin: Pin)

  datatype System = System(slot: Slot, now: nat, tasks: map<Id, Task>, sent: seq<Sent>)

  datatype Action =
    | Tick
    | StartStep(id: Id, name: Name, lifetime: nat)
    | StatusStep(id: Id)
    | SubmitStep(id: Id, submitted: Pin)
    | CancelStep(id: Id)
    | AskStep(id: Id)
    | TakeStep(id: Id)
    | ReceiveStep(id: Id)
    | AbandonStep(id: Id)
    | ReturnStep(id: Id, outcome: Option<Failure>)
    | FailStep(id: Id)
    | PairedStep(id: Id)
    | FinishStep(id: Id, identity: Option<Name>)
    | VanishStep(id: Id)

  function Init(): System {
    System(None, 0, map[], [])
  }

  predicate At(s: System, id: Id, pc: Pc) {
    id in s.tasks && s.tasks[id].pc == pc
  }

  predicate Receiving(s: System, id: Id) {
    id in s.tasks && s.tasks[id].channel
  }

  function Put(s: System, id: Id, slot: Slot, task: Task): System {
    s.(slot := slot, tasks := s.tasks[id := task])
  }

  /** A task takes any of its steps whether or not it was told to abort; it may also vanish. */
  function Next(s: System, action: Action): System {
    match action
    case Tick => s.(now := s.now + 1)
    case StartStep(id, name, lifetime) =>
      if id in s.tasks || Live(ExpireIfDue(s.slot, s.now)) then s
      else Put(s, id, Some(Session(id, Connecting, name, s.now + lifetime, None, false, true)), Task(Pairing, true, None, []))
    case StatusStep(id) =>
      if Holds(s.slot, id) then s.(slot := ExpireIfDue(s.slot, s.now)) else s
    case SubmitStep(id, pin) =>
      var t := s.(slot := Submit(s.slot, id, s.now, Receiving(s, id)));
      if TakesPin(s.slot, id, s.now) && Receiving(s, id) then
        t.(tasks := s.tasks[id := s.tasks[id].(mail := Some(pin))], sent := s.sent + [Sent(id, pin)])
      else t
    case CancelStep(id) => s.(slot := CancelSession(s.slot, id))
    case AskStep(id) =>
      if !At(s, id, Pairing) then s
      else Put(s, id, SetPhase(s.slot, id, AwaitingPin, None), s.tasks[id].(pc := Asking))
    case TakeStep(id) =>
      // A second request for the PIN finds the receiver gone and answers with an empty one.
      if !At(s, id, Asking) then s
      else if s.tasks[id].channel then Put(s, id, s.slot, s.tasks[id].(pc := Waiting))
      else Put(s, id, s.slot, s.tasks[id].(pc := Pairing, answers := s.tasks[id].answers + [None]))
    case ReceiveStep(id) =>
      // The receiver resolves when a PIN was sent or the sender is gone.
      if !At(s, id, Waiting) || (s.tasks[id].mail.None? && Holds(s.slot, id) && s.slot.value.pin) then s
      else Put(s, id, s.slot, Task(Pairing, false, None, s.tasks[id].answers + [s.tasks[id].mail]))
    case AbandonStep(id) =>
      // The handshake drops its wait for the PIN and goes on.
      if !At(s, id, Waiting) then s
      else Put(s, id, s.slot, Task(Pairing, false, None, s.tasks[id].answers))
    case ReturnStep(id, outcome) =>
      if !(At(s, id, Pairing) || At(s, id, Asking) || At(s, id, Waiting)) then s
      else
        var pc := if outcome.Some? then Stopping(outcome.value) else Paired;
        Put(s, id, s.slot, Task(pc, false, None, s.tasks[id].answers))
    case FailStep(id) =>
      if id !in s.tasks || !s.tasks[id].pc.Stopping? then s
      else Put(s, id, SetPhase(s.slot, id, Failed, Some(s.tasks[id].pc.failure)), s.tasks[id].(pc := Done))
    case PairedStep(id) =>
      if !At(s, id, Paired) then s
      else Put(s, id, SetPhase(s.slot, id, Verifying, None), s.tasks[id].(pc := Identifying))
    case FinishStep(id, identity) =>
      if !At(s, id, Identifying) then s
      else Put(s, id, Finish(s.slot, id, identity), s.tasks[id].(pc := Done))
    case VanishStep(id) =>
      if id !in s.tasks then s
      else Put(s, id, s.slot, Task(Done, false, None, s.tasks[id].answers))
  }

  function Run(actions: seq<Action>): System {
    if actions == [] then Init() else Next(Run(actions[..|actions| - 1]), actions[|actions| - 1])
  }

  /** How many PINs a session was sent. */
  function SentTo(sent: seq<Sent>, id: Id): seq<Pin> {
    if sent == [] then []
    else
      var last := sent[|sent| - 1];
      SentTo(sent[..|sent| - 1], id) + (if last.id == id then [last.pin] else [])
  }

  /** The PINs the callback of a task really got, without the empty answers. */
  function Typed(answers: seq<Option<Pin>>): seq<Pin> {
    if answers == [] then []
    else
      var last := answers[|answers| - 1];
      Typed(answers[..|answers| - 1]) + (if last.Some? then [last.value] else [])
  }

  predicate MailOk(task: Task, sent: seq<Pin>) {
    && |sent| <= 1
    && (task.mail.Some? ==> sent == [task.mail.value] && Typed(task.answers) == [] && task.channel)
    && (sent != [] && task.channel ==> task.mail == Some(sent[0]))
    && (Typed(task.answers) == [] || Typed(task.answers) == sent)
    && (sent == [] ==> Typed(task.answers) == [])
  }

  predicate SessionOk(s: System, session: Session) {
    && session.id in s.tasks
    && (session.failure.Some? <==> session.phase == Failed)
    && (session.verified ==> session.phase == Ready)
    && (!IsTerminal(session.phase) && session.pin ==> SentTo(s.sent, session.id) == [])
    && (session.phase == Verifying && session.pin ==> s.tasks[session.id].pc in {Identifying, Done})
    && (session.phase in {Connecting, AwaitingPin} ==> !s.tasks[session.id].pc.Identifying?)
  }

  ghost predicate Inv(s: System) {
    && (s.slot.Some? ==> SessionOk(s, s.slot.value))
    && (forall id :: id in s.tasks ==> MailOk(s.tasks[id], SentTo(s.sent, id)))
    && (forall id: Id :: id !in s.tasks ==> SentTo(s.sent, id) == [])
  }

  lemma SentOne(sent: seq<Sent>, one: Sent, id: Id)
    ensures SentTo(sent + [one], id) == SentTo(sent, id) + if one.id == id then [one.pin] else []
  {
    assert (sent + [one])[..|sent|] == sent;
  }

  lemma TypedOne(answers: seq<Option<Pin>>, one: Option<Pin>)
    ensures Typed(answers + [one]) == Typed(answers) + if one.Some? then [one.value] else []
  {
    assert (answers + [one])[..|answers|] == answers;
  }

  lemma PutKeepsInv(s: System, id: Id, slot: Slot, task: Task)
    requires Inv(s) && MailOk(task, SentTo(s.sent, id))
    requires slot.Some? ==> SessionOk(Put(s, id, slot, task), slot.value)
    ensures Inv(Put(s, id, slot, task))
  {
  }

  /** The one-shot channel of a live session that was sent nothing takes the PIN. */
  lemma MailTakesPin(task: Task, pin: Pin)
    requires MailOk(task, []) && task.channel
    ensures MailOk(task.(mail := Some(pin)), [pin])
  {
    hide Typed;
  }

  lemma SentChanges(s: System, t: System, id: Id, pin: Pin)
    requires t.sent == s.sent + [Sent(id, pin)]
    ensures forall other: Id :: SentTo(t.sent, other) == SentTo(s.sent, other) + if id == other then [pin] else []
  {
    forall other: Id ensures SentTo(t.sent, other) == SentTo(s.sent, other) + if id == other then [pin] else [] {
      SentOne(s.sent, Sent(id, pin), other);
    }
  }

  lemma DeliveryKeepsInv(s: System, id: Id, pin: Pin)
    requires Inv(s) && TakesPin(s.slot, id, s.now) && Receiving(s, id)
    ensures Inv(Next(s, SubmitStep(id, pin)))
  {
    var t := Next(s, SubmitStep(id, pin));
    SentChanges(s, t, id, pin);
    assert SentTo(s.sent, id) == [];
    MailTakesPin(s.tasks[id], pin);
    hide SentTo, MailOk, Next;
    assert t.slot == Some(s.slot.value.(pin := false, phase := Verifying)) && t.tasks == s.tasks[id := s.tasks[id].(mail := Some(pin))] by {
      DeliveryIs(s, id, pin);
    }
    forall other | other in t.tasks ensures MailOk(t.tasks[other], SentTo(t.sent, other)) {
      if other != id {
        assert SentTo(t.sent, other) == SentTo(s.sent, other) + [];
      }
    }
    forall other: Id | other !in t.tasks ensures SentTo(t.sent, other) == [] {
      assert SentTo(t.sent, other) == SentTo(s.sent, other) + [];
    }
  }

  lemma DeliveryIs(s: System, id: Id, pin: Pin)
    requires TakesPin(s.slot, id, s.now) && Receiving(s, id)
    ensures
      var t := Next(s, SubmitStep(id, pin));
      && t.slot == Some(s.slot.value.(pin := false, phase := Verifying))
      && t.tasks == s.tasks[id := s.tasks[id].(mail := Some(pin))]
      && t.sent == s.sent + [Sent(id, pin)] && t.now == s.now
  {
  }

  lemma SubmitKeepsInv(s: System, id: Id, pin: Pin)
    requires Inv(s)
    ensures Inv(Next(s, SubmitStep(id, pin)))
  {
    if TakesPin(s.slot, id, s.now) && Receiving(s, id) {
      DeliveryKeepsInv(s, id, pin);
    } else {
      hide MailOk, SentTo;
    }
  }

  /** The callback answers with the mail of the channel, and the channel is used up. */
  lemma AnswerKeepsMail(task: Task, sent: seq<Pin>, pc: Pc)
    requires MailOk(task, sent)
    ensures MailOk(Task(pc, false, None, task.answers + [task.mail]), sent)
  {
    TypedOne(task.answers, task.mail);
  }

  lemma TakeKeepsInv(s: System, id: Id)
    requires Inv(s)
    ensures Inv(Next(s, TakeStep(id)))
  {
    if At(s, id, Asking) {
      var task := Next(s, TakeStep(id)).tasks[id];
      if !s.tasks[id].channel {
        AnswerKeepsMail(s.tasks[id], SentTo(s.sent, id), Pairing);
      }
      hide Typed, SentTo;
      PutKeepsInv(s, id, s.slot, task);
    }
  }

  lemma ReceiveKeepsInv(s: System, id: Id)
    requires Inv(s)
    ensures Inv(Next(s, ReceiveStep(id)))
  {
    if Next(s, ReceiveStep(id)) != s {
      AnswerKeepsMail(s.tasks[id], SentTo(s.sent, id), Pairing);
      hide Typed, SentTo;
      PutKeepsInv(s, id, s.slot, Task(Pairing, false, None, s.tasks[id].answers + [s.tasks[id].mail]));
    }
  }

  /** The remaining steps of a task leave its answers alone. */
  lemma TaskKeepsInv(s: System, action: Action)
    requires Inv(s) && !action.Tick? && action.id in s.tasks
    requires action.AskStep? || action.AbandonStep? || action.ReturnStep? || action.FailStep? || action.PairedStep? || action.FinishStep? || action.VanishStep?
    ensures Inv(Next(s, action))
  {
    hide Typed, SentTo;
    var t := Next(s, action);
    if t != s {
      assert t == Put(s, action.id, t.slot, t.tasks[action.id]);
      PutKeepsInv(s, action.id, t.slot, t.tasks[action.id]);
    }
  }

  lemma InvKept(s: System, action: Action)
    requires Inv(s)
    ensures Inv(Next(s, action))
  {
    if action.SubmitStep? {
      SubmitKeepsInv(s, action.id, action.submitted);
    } else if action.TakeStep? {
      TakeKeepsInv(s, action.id);
    } else if action.ReceiveStep? {
      ReceiveKeepsInv(s, action.id);
    } else if action.Tick? || action.StatusStep? || action.CancelStep? || action.StartStep? {
      assert Next(s, action).sent == s.sent;
    } else if action.id in s.tasks {
      TaskKeepsInv(s, action);
    }
  }

  lemma {:induction false} InvAlways(actions: seq<Action>)
    ensures Inv(Run(actions))
    decreases |actions|
  {
    if actions != [] {
      InvAlways(actions[..|actions| - 1]);
      InvKept(Run(actions[..|actions| - 1]), actions[|actions| - 1]);
    }
  }

  // ----- what every run keeps

  predicate TaskAction(action: Action) {
    && !action.Tick? && !action.StartStep? && !action.StatusStep? && !action.SubmitStep? && !action.CancelStep?
  }

  /** A step of a task whose session was replaced changes no session. */
  lemma StaleTaskIsHarmless(s: System, action: Action)
    requires TaskAction(action) && !Holds(s.slot, action.id)
    ensures Next(s, action).slot == s.slot
  {
  }

  lemma PhaseStep(s: System, action: Action)
    requires Inv(s) && s.slot.Some? && Holds(Next(s, action).slot, s.slot.value.id)
    ensures
      var before, after := s.slot.value, Next(s, action).slot.value;
      && Rank(before.phase) <= Rank(after.phase)
      && (Rank(before.phase) == Rank(after.phase) ==> before.phase == after.phase)
      && (IsTerminal(before.phase) ==> after == before)
  {
    hide Typed, SentTo;
  }

  /** In every run the phases of a session only move forward, and an ended session is not touched. */
  lemma PhasesMoveForward(actions: seq<Action>, action: Action)
    requires Run(actions).slot.Some? && Holds(Next(Run(actions), action).slot, Run(actions).slot.value.id)
    ensures
      var before, after := Run(actions).slot.value, Next(Run(actions), action).slot.value;
      && Rank(before.phase) <= Rank(after.phase)
      && (Rank(before.phase) == Rank(after.phase) ==> before.phase == after.phase)
      && (IsTerminal(before.phase) ==> after == before)
  {
    InvAlways(actions);
    PhaseStep(Run(actions), action);
  }

  /** A session is replaced only when it ended or is due, so at most one session is ever live. */
  lemma LiveSessionIsNotReplaced(s: System, action: Action)
    requires Live(s.slot) && s.now < s.slot.value.expiresAt
    ensures Holds(Next(s, action).slot, s.slot.value.id)
  {
  }

  predicate Over(s: System, id: Id) {
    id in s.tasks && (Holds(s.slot, id) ==> !Live(s.slot))
  }

  lemma OverStays(s: System, action: Action, id: Id)
    requires Inv(s) && Over(s, id)
    ensures
      var t := Next(s, action);
      Over(t, id) && (Holds(t.slot, id) ==> t.slot == s.slot)
  {
    hide Typed, SentTo;
  }

  lemma OverGetsNoPin(s: System, action: Action, id: Id)
    requires Over(s, id)
    ensures SentTo(Next(s, action).sent, id) == SentTo(s.sent, id)
  {
    var t := Next(s, action);
    if t.sent != s.sent {
      assert TakesPin(s.slot, action.id, s.now);
      SentOne(s.sent, Sent(action.id, action.submitted), id);
    }
  }

  function RunFrom(s: System, actions: seq<Action>): System {
    if actions == [] then s else Next(RunFrom(s, actions[..|actions| - 1]), actions[|actions| - 1])
  }

  lemma {:induction false} RunJoins(first: seq<Action>, rest: seq<Action>)
    ensures Run(first + rest) == RunFrom(Run(first), rest)
    decreases |rest|
  {
    if rest == [] {
      assert first + rest == first;
    } else {
      var n := |rest| - 1;
      hide Next;
      RunJoins(first, rest[..n]);
      assert (first + rest)[..|first| + n] == first + rest[..n];
    }
  }

  lemma {:induction false} StaysOver(s: System, rest: seq<Action>, id: Id)
    requires Inv(s) && Over(s, id)
    ensures
      var t := RunFrom(s, rest);
      && Inv(t) && Over(t, id) && SentTo(t.sent, id) == SentTo(s.sent, id)
      && (Holds(t.slot, id) ==> t.slot == s.slot)
    decreases |rest|
  {
    if rest != [] {
      var n := |rest| - 1;
      StaysOver(s, rest[..n], id);
      var m := RunFrom(s, rest[..n]);
      hide Inv, Next, SentTo;
      InvKept(m, rest[n]);
      OverStays(m, rest[n], id);
      OverGetsNoPin(m, rest[n], id);
    }
  }

  /** An ended session is final: it is never changed again and gets no further PIN, even from its own task. */
  lemma EndedSessionIsFinal(first: seq<Action>, rest: seq<Action>)
    requires Run(first).slot.Some? && !Live(Run(first).slot)
    ensures
      var s := Run(first);
      var t := Run(first + rest);
      var id := s.slot.value.id;
      && (Holds(t.slot, id) ==> t.slot == s.slot)
      && SentTo(t.sent, id) == SentTo(s.sent, id)
  {
    InvAlways(first);
    RunJoins(first, rest);
    StaysOver(Run(first), rest, Run(first).slot.value.id);
  }

  /** At most one PIN is sent per session, and the pairing uses no other. */
  lemma OnePinPerSession(actions: seq<Action>, id: Id)
    ensures
      var s := Run(actions);
      && |SentTo(s.sent, id)| <= 1
      && (id in s.tasks ==> Typed(s.tasks[id].answers) in {[], SentTo(s.sent, id)})
  {
    InvAlways(actions);
  }

  /** A waiting task gets the PIN that was sent to its session. */
  lemma SentPinArrives(actions: seq<Action>, id: Id)
    requires
      var s := Run(actions);
      At(s, id, Waiting) && s.tasks[id].channel && SentTo(s.sent, id) != []
    ensures
      var s := Run(actions);
      Next(s, ReceiveStep(id)).tasks[id].answers == s.tasks[id].answers + [Some(SentTo(s.sent, id)[0])]
  {
    InvAlways(actions);
  }

  /** A failure code is present exactly in `Failed`; only a ready session is verified. */
  lemma FailureCodeExactlyInFailed(actions: seq<Action>)
    ensures
      var slot := Run(actions).slot;
      slot.Some? ==> (slot.value.failure.Some? <==> slot.value.phase == Failed) && (slot.value.verified ==> slot.value.phase == Ready)
  {
    InvAlways(actions);
  }
}
