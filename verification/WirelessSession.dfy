/**
 The wireless pairing session: `start_wireless`, `status`, `cancel` and the pairing task share
 one session slot, and pairing state is saved at one point only. Time is in milliseconds; a
 session's expiry is in whole seconds, as the code rounds it.
 */
module WirelessSession {
  import opened Wrappers

  type Id = nat
  type Code = nat

  datatype Phase = AwaitingDevice | AwaitingCodeEntry | VerifyingTransport | Ready | Failed | Cancelled | Expired

  predicate IsTerminal(phase: Phase) {
    phase in {Ready, Failed, Cancelled, Expired}
  }

  datatype Session = Session(id: Id, phase: Phase, expiresAt: nat, setupCode: Option<Code>)

  /** Saved pairing material: from before this process, or from one of its sessions. */
  datatype Pairing = Earlier(material: nat) | From(session: Id)

  /** What the service shares: the session slot, the saved pairing, and the tasks told to abort. */
  datatype Service = Service(session: Option<Session>, stored: Option<Pairing>, aborted: set<Id>)

  predicate Live(v: Service) {
    v.session.Some? && !IsTerminal(v.session.value.phase)
  }

  /** Seconds. */
  const SESSION_LIFETIME: nat := 300

  predicate Due(session: Session, now: nat) {
    now / 1000 >= session.expiresAt
  }

  /** The commitment may last for the whole seconds that are left, counted from the moment it starts. */
  function CommitDeadline(expiresAt: nat, now: nat): (deadline: nat)
    ensures now <= deadline
    ensures deadline > now <==> now / 1000 < expiresAt
    ensures deadline > now ==> expiresAt * 1000 <= deadline < (expiresAt + 1) * 1000
  {
    if expiresAt > now / 1000 then now + (expiresAt - now / 1000) * 1000 else now
  }

  // ----- the sections under the session lock

  /** The abort branch that `start_wireless` and `status` share. */
  function ExpireIfDue(v: Service, now: nat): Service {
    if Live(v) && Due(v.session.value, now) then
      v.(session := Some(v.session.value.(phase := Expired, setupCode := None)), aborted := v.aborted + {v.session.value.id})
    else v
  }

  function CancelSession(v: Service, id: Id): Service {
    if Live(v) && v.session.value.id == id then
      v.(session := Some(v.session.value.(phase := Cancelled, setupCode := None)), aborted := v.aborted + {id})
    else v
  }

  /** `set_phase` checks the id and nothing else. */
  function SetPhase(v: Service, id: Id, phase: Phase): Service {
    if v.session.Some? && v.session.value.id == id then
      v.(session := Some(v.session.value.(phase := phase, setupCode := None)))
    else v
  }

  function SetSetupCode(v: Service, id: Id, code: Code): Service {
    if v.session.Some? && v.session.value.id == id then
      v.(session := Some(v.session.value.(setupCode := Some(code))))
    else v
  }

  /** `finalize_new_pairing`, with the outcome of the commitment and of the save. */
  function Finalize(v: Service, id: Id, committed: bool, deadline: nat, now: nat, saved: bool): Service {
    if !Live(v) || v.session.value.id != id then v
    else
      var fine := committed && now < deadline && saved;
      v.(session := Some(v.session.value.(phase := if fine then VerifyingTransport else Failed, setupCode := None)),
         stored := if fine then Some(From(id)) else v.stored)
  }

  /** `record_transport_result`. */
  function RecordTransport(v: Service, id: Id, verified: bool): Service {
    if v.session.Some? && v.session.value.id == id && v.session.value.phase == VerifyingTransport then
      v.(session := Some(v.session.value.(phase := if verified then Ready else Failed, setupCode := None)))
    else v
  }

  datatype PairingError = Busy | NotReady | NotFound | Terminal

  class WirelessPairingService {
    var session: Option<Session>
    var stored: Option<Pairing>
    var aborted: set<Id>

    function View(): Service
      reads this
    {
      Service(session, stored, aborted)
    }

    constructor (stored: Option<Pairing>)
      ensures View() == Service(None, stored, {})
    {
      this.session, this.stored, aborted := None, stored, {};
    }

    method Expire(now: nat)
      modifies this
      ensures View() == ExpireIfDue(old(View()), now) && stored == old(stored)
      ensures if old(session).Some? && !IsTerminal(old(session).value.phase) && now / 1000 >= old(session).value.expiresAt then
                && session == Some(old(session).value.(phase := Expired, setupCode := None))
                && aborted == old(aborted) + {old(session).value.id}
              else
                session == old(session) && aborted == old(aborted)
    {
      if session.Some? && !IsTerminal(session.value.phase) && now / 1000 >= session.value.expiresAt {
        aborted := aborted + {session.value.id};
        session := Some(session.value.(phase := Expired, setupCode := None));
      }
    }

    /** The first section of `start_wireless`. */
    method CheckStart(now: nat) returns (r: Result<(), PairingError>)
      modifies this
      ensures View() == ExpireIfDue(old(View()), now) && stored == old(stored)
      ensures r == Err(Busy) <==> Live(old(View())) && now / 1000 < old(session).value.expiresAt
      ensures r.Err? ==> r.error == Busy && View() == old(View())
      ensures r.Ok? && Live(old(View())) ==> session == Some(old(session).value.(phase := Expired, setupCode := None))
      ensures r.Ok? && !Live(old(View())) ==> View() == old(View())
    {
      Expire(now);
      if session.Some? && !IsTerminal(session.value.phase) {
        return Err(Busy);
      }
      return Ok(());
    }

    /** The last section of `start_wireless`. */
    method Publish(id: Id, expiresAt: nat)
      modifies this`session
      ensures View() == old(View()).(session := Some(Session(id, AwaitingDevice, expiresAt, None)))
    {
      session := Some(Session(id, AwaitingDevice, expiresAt, None));
    }

    method Status(id: Id, now: nat) returns (r: Result<Session, PairingError>)
      modifies this
      ensures r.Ok? <==> old(session).Some? && old(session).value.id == id
      ensures r.Ok? ==> View() == ExpireIfDue(old(View()), now) && Some(r.value) == session && stored == old(stored)
      ensures r.Ok? && Live(old(View())) && now / 1000 >= old(session).value.expiresAt ==>
                r.value == old(session).value.(phase := Expired, setupCode := None) && id in aborted
      ensures r.Ok? && !(Live(old(View())) && now / 1000 >= old(session).value.expiresAt) ==>
                r.value == old(session).value && View() == old(View())
      ensures r.Err? ==> View() == old(View()) && r.error == NotFound
    {
      if session.None? || session.value.id != id {
        return Err(NotFound);
      }
      Expire(now);
      return Ok(session.value);
    }

    method Cancel(id: Id) returns (r: Result<(), PairingError>)
      modifies this
      ensures View() == CancelSession(old(View()), id)
      ensures r == Ok(()) <==> Live(old(View())) && old(session).value.id == id
      ensures r == Ok(()) ==> id in aborted && session == Some(old(session).value.(phase := Cancelled, setupCode := None))
      ensures r.Err? ==> View() == old(View())
      ensures r == Err(Terminal) <==> old(session).Some? && old(session).value.id == id && !Live(old(View()))
    {
      if session.None? || session.value.id != id {
        return Err(NotFound);
      }
      if IsTerminal(session.value.phase) {
        return Err(Terminal);
      }
      aborted := aborted + {id};
      session := Some(session.value.(phase := Cancelled, setupCode := None));
      return Ok(());
    }

    method RecordTransportResult(id: Id, verified: bool) returns (r: Result<Session, PairingError>)
      modifies this`session
      ensures View() == RecordTransport(old(View()), id, verified)
      ensures r.Ok? <==> old(session).Some? && old(session).value.id == id && old(session).value.phase == VerifyingTransport
      ensures r.Ok? ==>
                && Some(r.value) == session && stored == old(stored)
                && r.value == old(session).value.(phase := if verified then Ready else Failed, setupCode := None)
      ensures r.Err? ==> View() == old(View())
      ensures r == Err(NotFound) <==> old(session).None? || old(session).value.id != id
    {
      if session.None? || session.value.id != id {
        return Err(NotFound);
      }
      if session.value.phase != VerifyingTransport {
        return Err(Terminal);
      }
      session := Some(session.value.(phase := if verified then Ready else Failed, setupCode := None));
      return Ok(session.value);
    }

    method SetTaskPhase(id: Id, phase: Phase) returns (found: bool)
      modifies this`session
      ensures View() == SetPhase(old(View()), id, phase)
      ensures found <==> old(session).Some? && old(session).value.id == id
    {
      found := session.Some? && session.value.id == id;
      if found {
        session := Some(session.value.(phase := phase, setupCode := None));
      }
    }

    method SetCode(id: Id, code: Code)
      modifies this`session
      ensures View() == SetSetupCode(old(View()), id, code)
    {
      if session.Some? && session.value.id == id {
        session := Some(session.value.(setupCode := Some(code)));
      }
    }

    /** `finalize_new_pairing`; `saves` is what the store answers if it is asked. */
    method FinalizeNewPairing(id: Id, committed: bool, deadline: nat, now: nat, saves: bool)
      modifies this
      ensures View() == Finalize(old(View()), id, committed, deadline, now, saves)
      ensures stored != old(stored) ==> stored == Some(From(id)) && session.Some? && session.value.phase == VerifyingTransport
      ensures Live(old(View())) && old(session).value.id == id ==>
                session.value.phase == if committed && now < deadline && saves then VerifyingTransport else Failed
    {
      if session.None? || session.value.id != id || IsTerminal(session.value.phase) {
        return;
      }
      if !committed || now >= deadline {
        session := Some(session.value.(phase := Failed, setupCode := None));
      } else if saves {
        stored := Some(From(id));
        session := Some(session.value.(phase := VerifyingTransport, setupCode := None));
      } else {
        session := Some(session.value.(phase := Failed, setupCode := None));
      }
    }

    /**
     `start_wireless` when nothing comes between its two sections, as its own lock and the slot allow:
     a start takes the slot only from no session or an ended one. `ready` says that material,
     listeners and advertisement came up.
     */
    method StartWireless(id: Id, now: nat, ready: bool) returns (r: Result<Session, PairingError>)
      modifies this
      ensures
        var busy := Live(old(View())) && now / 1000 < old(session).value.expiresAt;
        && (r == Err(Busy) <==> busy)
        && (r.Ok? <==> !busy && ready)
        && (busy ==> View() == old(View()))
        && (!busy && !ready ==>
              session == if Live(old(View())) then Some(old(session).value.(phase := Expired, setupCode := None)) else old(session))
      ensures r.Ok? ==> session == Some(r.value) && r.value == Session(id, AwaitingDevice, now / 1000 + 300, None)
      ensures stored == old(stored)
    {
      var checked := CheckStart(now);
      if checked.Err? {
        return Err(Busy);
      }
      if !ready {
        return Err(NotReady);
      }
      Publish(id, now / 1000 + SESSION_LIFETIME);
      return Ok(session.value);
    }

    /**
     `run_pairing` when nothing comes between its sections: how the session ends and when the pairing
     is saved, for every course of the connection, the handshake and the commitment.
     */
    method RunPairing(id: Id, begun: nat, accepted: bool, codes: seq<Code>, paired: bool, timedOut: bool,
                      committing: nat, committed: bool, finished: nat, saves: bool)
      requires begun <= committing <= finished
      modifies this
      ensures
        var before := old(session);
        if Live(old(View())) && before.value.id == id then
          var outcome := if begun / 1000 >= before.value.expiresAt || !accepted || (!paired && timedOut) then Expired
                         else if paired && committed && saves && finished < CommitDeadline(before.value.expiresAt, committing) then VerifyingTransport
                         else Failed;
          && session == Some(before.value.(phase := outcome, setupCode := None))
          && stored == if outcome == VerifyingTransport then Some(From(id)) else old(stored)
        else
          View() == old(View())
    {
      var status := Status(id, begun);
      if status.Err? || IsTerminal(status.value.phase) {
        return;
      }
      var expiresAt := status.value.expiresAt;
      if !accepted {
        var _ := SetTaskPhase(id, Expired);
        return;
      }
      var _ := SetTaskPhase(id, AwaitingCodeEntry);
      for i := 0 to |codes|
        invariant session.Some? && session.value == status.value.(phase := AwaitingCodeEntry, setupCode := session.value.setupCode)
        invariant stored == old(stored)
      {
        SetCode(id, codes[i]);
      }
      if !paired {
        var _ := SetTaskPhase(id, if timedOut then Expired else Failed);
        return;
      }
      FinalizeNewPairing(id, committed, CommitDeadline(expiresAt, committing), finished, saves);
    }
  }

  // ----- every interleaving

  /** Where a pairing task is in `run_pairing`. */
  datatype Pc =
    | Begin
    | Accepting(expiresAt: nat)
    | Entering(expiresAt: nat)
    | Handshaking(expiresAt: nat)
    | Committing(deadline: nat)
    | Finalizing(committed: bool, deadline: nat)
    | Finishing(phase: Phase)
    | Done

  datatype Starter = Idle | Checked | Spawned(id: Id, expiresAt: nat)

  datatype Entry = Persisted(id: Id) | Ended(id: Id)

  datatype System = System(v: Service, now: nat, tasks: map<Id, Pc>, starter: Starter, history: seq<Entry>)

  datatype Action =
    | Tick
    | CheckStartStep
    | SpawnStep(id: Id, ready: bool)
    | PublishStep
    | DropStart
    | StatusStep(id: Id)
    | CancelStep(id: Id)
    | TransportStep(id: Id, verified: bool)
    | BeginStep(id: Id)
    | AcceptStep(id: Id, accepted: bool)
    | EnterStep(id: Id)
    | CodeStep(id: Id, code: Code)
    | HandshakeStep(id: Id, paired: bool, timedOut: bool)
    | CommitStep(id: Id, committed: bool)
    | FinalizeStep(id: Id, saves: bool)
    | FinishStep(id: Id)

  function Init(stored: Option<Pairing>): System {
    System(Service(None, stored, {}), 0, map[], Idle, [])
  }

  /** A task may step; `strict` is the rule, which the code does not quite enforce, that an aborted task takes no further step. */
  predicate Runs(s: System, id: Id, strict: bool) {
    id in s.tasks && s.tasks[id] != Done && (strict ==> id !in s.v.aborted)
  }

  /** Notes when a live session ended or was saved. */
  function Noted(before: Service, after: Service): seq<Entry> {
    if !Live(before) || after.session.None? || after.session.value.id != before.session.value.id then []
    else if IsTerminal(after.session.value.phase) then [Ended(before.session.value.id)]
    else if after.stored != before.stored then [Persisted(before.session.value.id)]
    else []
  }

  function With(s: System, v: Service, id: Id, pc: Pc): System {
    s.(v := v, tasks := s.tasks[id := pc], history := s.history + Noted(s.v, v))
  }

  function Next(s: System, action: Action, strict: bool): System {
    match action
    case Tick => s.(now := s.now + 1)
    case CheckStartStep =>
      if s.starter != Idle then s
      else
        var v := ExpireIfDue(s.v, s.now);
        s.(v := v, starter := if Live(v) then Idle else Checked, history := s.history + Noted(s.v, v))
    case SpawnStep(id, ready) =>
      // Loading the pairing, binding or advertising may fail; identifiers are fresh.
      if s.starter != Checked || id in s.tasks then s
      else if !ready then s.(starter := Idle)
      else s.(tasks := s.tasks[id := Begin], starter := Spawned(id, s.now / 1000 + SESSION_LIFETIME))
    case PublishStep =>
      if !s.starter.Spawned? then s
      else s.(v := s.v.(session := Some(Session(s.starter.id, AwaitingDevice, s.starter.expiresAt, None))), starter := Idle)
    case DropStart =>
      // Its client is gone; a task that was spawned already goes on without a session.
      s.(starter := Idle)
    case StatusStep(id) =>
      if s.v.session.None? || s.v.session.value.id != id then s
      else
        var v := ExpireIfDue(s.v, s.now);
        s.(v := v, history := s.history + Noted(s.v, v))
    case CancelStep(id) =>
      var v := CancelSession(s.v, id);
      s.(v := v, history := s.history + Noted(s.v, v))
    case TransportStep(id, verified) =>
      var v := RecordTransport(s.v, id, verified);
      s.(v := v, history := s.history + Noted(s.v, v))
    case BeginStep(id) =>
      if !Runs(s, id, strict) || s.tasks[id] != Begin then s
      else if s.v.session.None? || s.v.session.value.id != id then With(s, s.v, id, Done)
      else With(s, ExpireIfDue(s.v, s.now), id, Accepting(s.v.session.value.expiresAt))
    case AcceptStep(id, accepted) =>
      if !Runs(s, id, strict) || !s.tasks[id].Accepting? then s
      else With(s, s.v, id, if accepted then Entering(s.tasks[id].expiresAt) else Finishing(Expired))
    case EnterStep(id) =>
      if !Runs(s, id, strict) || !s.tasks[id].Entering? then s
      else if s.v.session.None? || s.v.session.value.id != id then With(s, s.v, id, Done)
      else With(s, SetPhase(s.v, id, AwaitingCodeEntry), id, Handshaking(s.tasks[id].expiresAt))
    case CodeStep(id, code) =>
      if !Runs(s, id, strict) || !s.tasks[id].Handshaking? then s
      else With(s, SetSetupCode(s.v, id, code), id, s.tasks[id])
    case HandshakeStep(id, paired, timedOut) =>
      if !Runs(s, id, strict) || !s.tasks[id].Handshaking? then s
      else With(s, s.v, id, if paired then Committing(CommitDeadline(s.tasks[id].expiresAt, s.now)) else Finishing(if timedOut then Expired else Failed))
    case CommitStep(id, committed) =>
      if !Runs(s, id, strict) || !s.tasks[id].Committing? then s
      else With(s, s.v, id, Finalizing(committed, s.tasks[id].deadline))
    case FinalizeStep(id, saves) =>
      if !Runs(s, id, strict) || !s.tasks[id].Finalizing? then s
      else With(s, Finalize(s.v, id, s.tasks[id].committed, s.tasks[id].deadline, s.now, saves), id, Done)
    case FinishStep(id) =>
      if !Runs(s, id, strict) || !s.tasks[id].Finishing? then s
      else With(s, SetPhase(s.v, id, s.tasks[id].phase), id, Done)
  }

  function Run(s: System, actions: seq<Action>, strict: bool): System {
    if actions == [] then s
    else Next(Run(s, actions[..|actions| - 1], strict), actions[|actions| - 1], strict)
  }

  /** The saved pairing is the last one the history says was saved. */
  function LastPersisted(history: seq<Entry>, initial: Option<Pairing>): Option<Pairing> {
    if history == [] then initial
    else
      var last := history[|history| - 1];
      if last.Persisted? then Some(From(last.id)) else LastPersisted(history[..|history| - 1], initial)
  }

  /** A commitment deadline that is still ahead lies less than a second after the expiry. */
  predicate DeadlineOk(deadline: nat, expiresAt: nat, now: nat) {
    deadline <= now || deadline < (expiresAt + 1) * 1000
  }

  /** What a running task still relies on: the phase, and the expiry it has read. */
  predicate PcFits(pc: Pc, session: Session, now: nat) {
    match pc
    case Begin => session.phase == AwaitingDevice
    case Accepting(expiresAt) => session.phase == AwaitingDevice && expiresAt == session.expiresAt
    case Entering(expiresAt) => session.phase == AwaitingDevice && expiresAt == session.expiresAt
    case Handshaking(expiresAt) => session.phase == AwaitingCodeEntry && expiresAt == session.expiresAt
    case Committing(deadline) => session.phase == AwaitingCodeEntry && DeadlineOk(deadline, session.expiresAt, now)
    case Finalizing(_, deadline) => session.phase == AwaitingCodeEntry && DeadlineOk(deadline, session.expiresAt, now)
    case Finishing(_) => session.phase in {AwaitingDevice, AwaitingCodeEntry}
    case Done => true
  }

  ghost predicate SessionInv(s: System) {
    && (forall id :: id in s.v.aborted ==> id in s.tasks)
    && (forall id :: id in s.tasks && s.tasks[id].Finishing? ==> s.tasks[id].phase in {Expired, Failed})
    && (s.starter.Spawned? ==> s.starter.id in s.tasks && s.starter.id !in s.v.aborted && s.tasks[s.starter.id] in {Begin, Done})
    && (s.starter != Idle ==> !Live(s.v))
    && (s.v.session.Some? ==>
          var session := s.v.session.value;
          && session.id in s.tasks && (s.starter.Spawned? ==> s.starter.id != session.id)
          && (session.setupCode.Some? ==> session.phase == AwaitingCodeEntry)
          && (session.id in s.v.aborted ==> IsTerminal(session.phase))
          && (session.id !in s.v.aborted ==> PcFits(s.tasks[session.id], session, s.now))
          && (session.phase == VerifyingTransport ==> s.tasks[session.id] == Done && s.v.stored == Some(From(session.id))))
  }

  ghost predicate HistoryInv(s: System, initial: Option<Pairing>) {
    && s.v.stored == LastPersisted(s.history, initial)
    && (forall i :: 0 <= i < |s.history| ==> s.history[i].id in s.tasks)
    && (forall i :: 0 <= i < |s.history| && s.starter.Spawned? ==> s.history[i].id != s.starter.id)
    && (forall i :: 0 <= i < |s.history| && s.history[i].Ended? && s.v.session.Some? && s.v.session.value.id == s.history[i].id ==>
          IsTerminal(s.v.session.value.phase))
    && (forall i :: 0 <= i < |s.history| && s.history[i].Persisted? && s.v.session.Some? && s.v.session.value.id == s.history[i].id ==>
          IsTerminal(s.v.session.value.phase) || s.v.session.value.phase == VerifyingTransport)
    && (forall i, j :: 0 <= i < j < |s.history| && s.history[i].id == s.history[j].id ==>
          s.history[i].Persisted? && s.history[j].Ended?)
    && (s.v.stored.Some? && s.v.stored.value.From? ==> Persisted(s.v.stored.value.session) in s.history)
  }

  predicate WritesFromTask(action: Action) {
    action.BeginStep? || action.EnterStep? || action.CodeStep? || action.FinalizeStep? || action.FinishStep?
  }

  /**
   A write that an aborted task makes to its ended session: the poll that the abort found under way
   asks for the code, shows one, or reports another ending.
   */
  predicate LateWrite(s: System, action: Action, strict: bool) {
    && !strict && s.v.session.Some?
    && var id := s.v.session.value.id;
       id in s.v.aborted && id in s.tasks
       && (|| (action == EnterStep(id) && s.tasks[id].Entering?)
           || (action.CodeStep? && action.id == id && s.tasks[id].Handshaking?)
           || (action == FinishStep(id) && s.tasks[id].Finishing? && s.tasks[id].phase != s.v.session.value.phase))
  }

  /** No step of the run is a late write. Aborted tasks may take any other step. */
  predicate NoLateWrites(s: System, actions: seq<Action>, strict: bool)
    decreases |actions|
  {
    actions != [] ==>
      var before := actions[..|actions| - 1];
      NoLateWrites(s, before, strict) && !LateWrite(Run(s, before, strict), actions[|actions| - 1], strict)
  }

  lemma TaskWritesKeepInv(s: System, action: Action, strict: bool)
    requires SessionInv(s) && WritesFromTask(action) && !LateWrite(s, action, strict)
    ensures SessionInv(Next(s, action, strict))
  {
    hide Noted;
  }

  lemma OthersKeepInv(s: System, action: Action, strict: bool)
    requires SessionInv(s) && !WritesFromTask(action)
    ensures SessionInv(Next(s, action, strict))
  {
    hide Noted;
  }

  lemma SessionInvKept(s: System, action: Action, strict: bool)
    requires SessionInv(s) && !LateWrite(s, action, strict)
    ensures SessionInv(Next(s, action, strict))
  {
    hide SessionInv, Next;
    if WritesFromTask(action) {
      TaskWritesKeepInv(s, action, strict);
    } else {
      OthersKeepInv(s, action, strict);
    }
  }

  lemma NotedExtends(history: seq<Entry>, entry: Entry, initial: Option<Pairing>)
    ensures LastPersisted(history + [entry], initial) == if entry.Persisted? then Some(From(entry.id)) else LastPersisted(history, initial)
  {
    assert (history + [entry])[..|history|] == history;
  }

  /** A step that changes no task, and whose session stays the same one. */
  lemma HistoryKept(s: System, t: System, initial: Option<Pairing>)
    requires SessionInv(s) && HistoryInv(s, initial)
    requires s.tasks.Keys <= t.tasks.Keys && (t.starter == s.starter || !t.starter.Spawned?)
    requires t.history == s.history + Noted(s.v, t.v)
    requires s.v.session.None? ==> t.v == s.v
    requires s.v.session.Some? ==>
      && t.v.session.Some? && t.v.session.value.id == s.v.session.value.id
      && (!Live(s.v) ==> t.v == s.v)
      && (Live(s.v) && s.v.session.value.phase == VerifyingTransport ==>
            t.v.stored == s.v.stored && (IsTerminal(t.v.session.value.phase) || t.v.session.value.phase == VerifyingTransport))
      && (t.v.stored != s.v.stored ==>
            && t.v.stored == Some(From(s.v.session.value.id)) && t.v.session.value.phase == VerifyingTransport)
    ensures HistoryInv(t, initial)
  {
    var noted := Noted(s.v, t.v);
    if noted == [] {
      assert t.history == s.history;
    } else {
      HistoryGrows(s, t, noted[0], initial);
    }
  }

  /** The history takes one more entry, about the session that was live. */
  lemma HistoryGrows(s: System, t: System, entry: Entry, initial: Option<Pairing>)
    requires SessionInv(s) && HistoryInv(s, initial) && Live(s.v)
    requires s.tasks.Keys <= t.tasks.Keys && (t.starter == s.starter || !t.starter.Spawned?)
    requires t.history == s.history + [entry] && entry.id == s.v.session.value.id
    requires t.v.session.Some? && t.v.session.value.id == entry.id
    requires entry.Ended? ==> t.v.stored == s.v.stored && IsTerminal(t.v.session.value.phase)
    requires entry.Persisted? ==>
      && s.v.session.value.phase != VerifyingTransport
      && t.v.stored == Some(From(entry.id)) && t.v.session.value.phase == VerifyingTransport
    ensures HistoryInv(t, initial)
  {
    NotedExtends(s.history, entry, initial);
    var n := |s.history|;
    assert t.history[n] == entry && t.history[..n] == s.history;
    assert forall i :: 0 <= i < n ==> t.history[i] == s.history[i];
    assert forall i :: 0 <= i < n && s.history[i].id == entry.id ==> s.history[i].Persisted? && entry.Ended?;
    if t.v.stored.Some? && t.v.stored.value.From? {
      assert Persisted(t.v.stored.value.session) in t.history;
    }
  }

  lemma NotedNothing(v: Service)
    ensures Noted(v, v) == []
  {
  }

  /** Publishing and spawning note nothing and touch no saved state. */
  lemma StartKeepsHistory(s: System, action: Action, strict: bool, initial: Option<Pairing>)
    requires SessionInv(s) && HistoryInv(s, initial) && (action.PublishStep? || action.SpawnStep?)
    ensures HistoryInv(Next(s, action, strict), initial)
  {
    hide LastPersisted, Noted;
    assert Next(s, action, strict).history == s.history;
  }

  lemma TaskKeepsHistory(s: System, action: Action, strict: bool, initial: Option<Pairing>)
    requires SessionInv(s) && HistoryInv(s, initial) && WritesFromTask(action) && !LateWrite(s, action, strict)
    ensures HistoryInv(Next(s, action, strict), initial)
  {
    hide HistoryInv, LastPersisted, Noted;
    NotedNothing(s.v);
    var t := Next(s, action, strict);
    assert t.history == s.history + Noted(s.v, t.v);
    HistoryKept(s, t, initial);
  }

  lemma OthersKeepHistory(s: System, action: Action, strict: bool, initial: Option<Pairing>)
    requires SessionInv(s) && HistoryInv(s, initial)
    requires !WritesFromTask(action) && !action.PublishStep? && !action.SpawnStep?
    ensures HistoryInv(Next(s, action, strict), initial)
  {
    hide HistoryInv, LastPersisted, Noted;
    NotedNothing(s.v);
    var t := Next(s, action, strict);
    assert t.history == s.history + Noted(s.v, t.v);
    HistoryKept(s, t, initial);
  }

  lemma HistoryInvKept(s: System, action: Action, strict: bool, initial: Option<Pairing>)
    requires SessionInv(s) && HistoryInv(s, initial) && !LateWrite(s, action, strict)
    ensures HistoryInv(Next(s, action, strict), initial)
  {
    hide SessionInv, HistoryInv, Next;
    if WritesFromTask(action) {
      TaskKeepsHistory(s, action, strict, initial);
    } else if action.PublishStep? || action.SpawnStep? {
      StartKeepsHistory(s, action, strict, initial);
    } else {
      OthersKeepHistory(s, action, strict, initial);
    }
  }

  lemma {:induction false} InvAlways(initial: Option<Pairing>, actions: seq<Action>, strict: bool)
    requires initial.Some? ==> initial.value.Earlier?
    requires NoLateWrites(Init(initial), actions, strict)
    ensures SessionInv(Run(Init(initial), actions, strict)) && HistoryInv(Run(Init(initial), actions, strict), initial)
    decreases |actions|
  {
    if actions != [] {
      var n := |actions| - 1;
      InvAlways(initial, actions[..n], strict);
      hide SessionInv, HistoryInv, Next, LateWrite;
      SessionInvKept(Run(Init(initial), actions[..n], strict), actions[n], strict);
      HistoryInvKept(Run(Init(initial), actions[..n], strict), actions[n], strict, initial);
    }
  }

  lemma {:induction false} StrictRunsHaveNoLateWrites(s: System, actions: seq<Action>)
    ensures NoLateWrites(s, actions, true)
    decreases |actions|
  {
    hide Next;
    if actions != [] {
      StrictRunsHaveNoLateWrites(s, actions[..|actions| - 1]);
    }
  }

  // ----- what every run keeps

  /** The one persistence point. It needs no invariant, and holds even when aborted tasks keep stepping. */
  lemma SavedAtOnePoint(s: System, action: Action, strict: bool)
    ensures
      var t := Next(s, action, strict);
      t.v.stored != s.v.stored ==>
        && action.FinalizeStep? && Runs(s, action.id, strict)
        && s.tasks[action.id].Finalizing? && s.tasks[action.id].committed && s.now < s.tasks[action.id].deadline
        && Live(s.v) && s.v.session.value.id == action.id
        && t.v.session == Some(s.v.session.value.(phase := VerifyingTransport, setupCode := None))
        && t.v.stored == Some(From(action.id))
  {
  }

  /** In a run a pairing is saved less than a second after its session's expiry at the latest. */
  lemma SavedInTime(initial: Option<Pairing>, actions: seq<Action>, action: Action, strict: bool)
    requires initial.Some? ==> initial.value.Earlier?
    requires NoLateWrites(Init(initial), actions, strict)
    ensures
      var s := Run(Init(initial), actions, strict);
      Next(s, action, strict).v.stored != s.v.stored ==> Live(s.v) && s.now < (s.v.session.value.expiresAt + 1) * 1000
  {
    InvAlways(initial, actions, strict);
    SaveStepInTime(Run(Init(initial), actions, strict), action, strict);
  }

  lemma SaveStepInTime(s: System, action: Action, strict: bool)
    requires SessionInv(s)
    ensures Next(s, action, strict).v.stored != s.v.stored ==> Live(s.v) && s.now < (s.v.session.value.expiresAt + 1) * 1000
  {
    hide Noted;
    SavedAtOnePoint(s, action, strict);
  }

  /** The saved state is the one the last successful commitment wrote, and each session saves at most once, before it ends. */
  lemma SavedOncePerSession(initial: Option<Pairing>, actions: seq<Action>, strict: bool)
    requires initial.Some? ==> initial.value.Earlier?
    requires NoLateWrites(Init(initial), actions, strict)
    ensures
      var s := Run(Init(initial), actions, strict);
      && s.v.stored == LastPersisted(s.history, initial)
      && (forall i, j :: 0 <= i < j < |s.history| && s.history[i].id == s.history[j].id ==>
            s.history[i].Persisted? && s.history[j].Ended?)
  {
    InvAlways(initial, actions, strict);
  }

  lemma ReadyStep(s: System, action: Action, strict: bool, id: Id)
    requires SessionInv(s) && !LateWrite(s, action, strict)
    ensures
      var t := Next(s, action, strict);
      t.v.session.Some? && t.v.session.value.id == id && t.v.session.value.phase == Ready && t.v.session != s.v.session ==>
        && action == TransportStep(id, true)
        && s.v.session.Some? && s.v.session.value.id == id && s.v.session.value.phase == VerifyingTransport
        && t.v.stored == s.v.stored == Some(From(id))
  {
    hide Noted;
  }

  /**
   In a run a session becomes `Ready` only by a good transport result while its transport is verified,
   and then its own pairing is the saved one.
   */
  lemma ReadyOnlyAfterSaving(initial: Option<Pairing>, actions: seq<Action>, action: Action, strict: bool, id: Id)
    requires initial.Some? ==> initial.value.Earlier?
    requires NoLateWrites(Init(initial), actions + [action], strict)
    ensures
      var s := Run(Init(initial), actions, strict);
      var t := Run(Init(initial), actions + [action], strict);
      t.v.session.Some? && t.v.session.value.id == id && t.v.session.value.phase == Ready && t.v.session != s.v.session ==>
        && action == TransportStep(id, true)
        && s.v.session.Some? && s.v.session.value.id == id && s.v.session.value.phase == VerifyingTransport
        && t.v.stored == s.v.stored == Some(From(id))
  {
    assert (actions + [action])[..|actions|] == actions;
    InvAlways(initial, actions, strict);
    hide Next, LateWrite, SessionInv, HistoryInv;
    ReadyStep(Run(Init(initial), actions, strict), action, strict, id);
  }

  /** A setup code is only ever shown while a code is awaited. */
  lemma CodeOnlyWhileAwaited(initial: Option<Pairing>, actions: seq<Action>, strict: bool)
    requires initial.Some? ==> initial.value.Earlier?
    requires NoLateWrites(Init(initial), actions, strict)
    ensures
      var v := Run(Init(initial), actions, strict).v;
      v.session.Some? && v.session.value.setupCode.Some? ==> v.session.value.phase == AwaitingCodeEntry
  {
    InvAlways(initial, actions, strict);
  }

  /** A code that the task of the live session is given is shown. */
  lemma CodeIsShown(initial: Option<Pairing>, actions: seq<Action>, strict: bool, id: Id, code: Code)
    requires initial.Some? ==> initial.value.Earlier?
    requires NoLateWrites(Init(initial), actions, strict)
    requires
      var s := Run(Init(initial), actions, strict);
      Live(s.v) && s.v.session.value.id == id && id in s.tasks && s.tasks[id].Handshaking?
    ensures
      var s := Run(Init(initial), actions, strict);
      Next(s, CodeStep(id, code), strict).v.session == Some(Session(id, AwaitingCodeEntry, s.v.session.value.expiresAt, Some(code)))
  {
    InvAlways(initial, actions, strict);
  }

  /** Session `id` was published and is over: ended, or already replaced. */
  predicate Over(s: System, id: Id) {
    && id in s.tasks && !(s.starter.Spawned? && s.starter.id == id)
    && (s.v.session.Some? && s.v.session.value.id == id ==> IsTerminal(s.v.session.value.phase))
  }

  lemma OverStays(s: System, action: Action, strict: bool, id: Id)
    requires SessionInv(s) && Over(s, id) && !LateWrite(s, action, strict)
    ensures
      var t := Next(s, action, strict);
      && Over(t, id)
      && (t.v.stored == Some(From(id)) ==> s.v.stored == Some(From(id)))
      && (t.v.session.Some? && t.v.session.value.id == id ==> t.v.session == s.v.session)
  {
    hide Noted;
  }

  lemma {:induction false} RunJoins(s: System, first: seq<Action>, rest: seq<Action>, strict: bool)
    ensures Run(s, first + rest, strict) == Run(Run(s, first, strict), rest, strict)
    decreases |rest|
  {
    hide Next;
    if rest == [] {
      assert first + rest == first;
    } else {
      var n := |rest| - 1;
      RunJoins(s, first, rest[..n], strict);
      assert (first + rest)[..|first| + n] == first + rest[..n];
    }
  }

  lemma {:induction false} StaysOver(s: System, rest: seq<Action>, strict: bool, id: Id)
    requires SessionInv(s) && Over(s, id) && NoLateWrites(s, rest, strict)
    ensures
      var t := Run(s, rest, strict);
      && SessionInv(t) && Over(t, id)
      && (t.v.stored == Some(From(id)) ==> s.v.stored == Some(From(id)))
      && (t.v.session.Some? && t.v.session.value.id == id ==> t.v.session == s.v.session)
    decreases |rest|
  {
    if rest != [] {
      var n := |rest| - 1;
      StaysOver(s, rest[..n], strict, id);
      var m := Run(s, rest[..n], strict);
      hide SessionInv;
      SessionInvKept(m, rest[n], strict);
      OverStays(m, rest[n], strict, id);
    }
  }

  lemma {:induction false} LateWritesJoin(s: System, first: seq<Action>, rest: seq<Action>, strict: bool)
    requires NoLateWrites(s, first + rest, strict)
    ensures NoLateWrites(s, first, strict) && NoLateWrites(Run(s, first, strict), rest, strict)
    decreases |rest|
  {
    hide Next, LateWrite;
    if rest == [] {
      assert first + rest == first;
    } else {
      var n := |rest| - 1;
      assert (first + rest)[..|first + rest| - 1] == first + rest[..n];
      LateWritesJoin(s, first, rest[..n], strict);
      RunJoins(s, first, rest[..n], strict);
    }
  }

  /**
   A session that ended, however it ended, is never changed again without a late write, and saves
   nothing afterwards: whatever else happens, if its pairing is the saved one, it already was when the
   session ended.
   */
  lemma EndedSessionIsFinal(initial: Option<Pairing>, first: seq<Action>, rest: seq<Action>, strict: bool)
    requires initial.Some? ==> initial.value.Earlier?
    requires NoLateWrites(Init(initial), first + rest, strict)
    requires
      var s := Run(Init(initial), first, strict);
      s.v.session.Some? && IsTerminal(s.v.session.value.phase)
    ensures
      var s := Run(Init(initial), first, strict);
      var t := Run(Init(initial), first + rest, strict);
      var id := s.v.session.value.id;
      && (t.v.session.Some? && t.v.session.value.id == id ==> t.v.session == s.v.session)
      && (t.v.stored == Some(From(id)) ==> s.v.stored == Some(From(id)))
  {
    LateWritesJoin(Init(initial), first, rest, strict);
    InvAlways(initial, first, strict);
    RunJoins(Init(initial), first, rest, strict);
    hide Next, LateWrite, NoLateWrites, HistoryInv;
    StaysOver(Run(Init(initial), first, strict), rest, strict, Run(Init(initial), first, strict).v.session.value.id);
  }

  /** And a late write does change it: in a run without late writes so far, a step changes an ended session exactly if it is one. */
  lemma EndedSessionChangesOnlyLate(initial: Option<Pairing>, actions: seq<Action>, action: Action, strict: bool)
    requires initial.Some? ==> initial.value.Earlier?
    requires NoLateWrites(Init(initial), actions, strict)
    requires
      var s := Run(Init(initial), actions, strict);
      s.v.session.Some? && IsTerminal(s.v.session.value.phase)
    ensures
      var s := Run(Init(initial), actions, strict);
      var t := Next(s, action, strict);
      LateWrite(s, action, strict) <==> t.v.session.Some? && t.v.session.value.id == s.v.session.value.id && t.v.session != s.v.session
  {
    InvAlways(initial, actions, strict);
    var s := Run(Init(initial), actions, strict);
    hide Run, NoLateWrites;
    if LateWrite(s, action, strict) {
      LateWriteShows(s, action, strict);
    } else {
      OverStays(s, action, strict, s.v.session.value.id);
    }
  }

  lemma LateWriteShows(s: System, action: Action, strict: bool)
    requires SessionInv(s) && LateWrite(s, action, strict) && IsTerminal(s.v.session.value.phase)
    ensures
      var t := Next(s, action, strict);
      t.v.session.Some? && t.v.session.value.id == s.v.session.value.id && t.v.session != s.v.session
  {
    hide Noted;
  }

  lemma KeepsLiveSession(s: System, action: Action, strict: bool)
    requires SessionInv(s)
    ensures Live(s.v) ==> Next(s, action, strict).v.session.Some? && Next(s, action, strict).v.session.value.id == s.v.session.value.id
  {
    hide Noted;
  }

  /** No step replaces a live session. */
  lemma LiveSessionIsNotReplaced(initial: Option<Pairing>, actions: seq<Action>, action: Action, strict: bool)
    requires initial.Some? ==> initial.value.Earlier?
    requires NoLateWrites(Init(initial), actions, strict)
    ensures
      var s := Run(Init(initial), actions, strict);
      var t := Next(s, action, strict);
      Live(s.v) ==> t.v.session.Some? && t.v.session.value.id == s.v.session.value.id
  {
    InvAlways(initial, actions, strict);
    KeepsLiveSession(Run(Init(initial), actions, strict), action, strict);
  }

  /** The task of the cancelled session `id` is about to ask for the code. */
  predicate CancelledWhileAccepting(s: System, id: Id) {
    && id in s.tasks && s.tasks[id].Entering? && id in s.v.aborted
    && s.v.session.Some? && s.v.session.value.id == id && s.v.session.value.phase == Cancelled
    && s.now / 1000 < s.tasks[id].expiresAt && s.v.stored != Some(From(id))
  }

  /**
   `set_phase` and `finish` have no guard on the phase: a task that goes on after its abort revives a
   cancelled session and saves its pairing.
   */
  lemma AbortedTaskMustStop(s: System, id: Id)
    requires CancelledWhileAccepting(s, id)
    ensures
      Run(s, [EnterStep(id), HandshakeStep(id, true, false), CommitStep(id, true), FinalizeStep(id, true)], false).v.stored == Some(From(id))
  {
    var last := [CommitStep(id, true), FinalizeStep(id, true)];
    RevivedAndPaired(s, id);
    hide Next;
    var paired := Next(Next(s, EnterStep(id), false), HandshakeStep(id, true, false), false);
    RunOfTwo(s, EnterStep(id), HandshakeStep(id, true, false), last, false);
    SavedAfterPairing(paired, id);
    RunOfTwo(paired, CommitStep(id, true), FinalizeStep(id, true), [], false);
    assert last + [] == last;
    assert [EnterStep(id), HandshakeStep(id, true, false)] + last
        == [EnterStep(id), HandshakeStep(id, true, false), CommitStep(id, true), FinalizeStep(id, true)];
  }

  predicate AboutToCommit(s: System, id: Id) {
    id in s.tasks && s.tasks[id].Committing? && s.now < s.tasks[id].deadline && Live(s.v) && s.v.session.value.id == id
  }

  lemma RevivedAndPaired(s: System, id: Id)
    requires CancelledWhileAccepting(s, id)
    ensures AboutToCommit(Next(Next(s, EnterStep(id), false), HandshakeStep(id, true, false), false), id)
  {
    hide Noted;
    var entered := Next(s, EnterStep(id), false);
    assert entered.tasks[id] == Handshaking(s.tasks[id].expiresAt) && entered.v == SetPhase(s.v, id, AwaitingCodeEntry);
  }

  lemma SavedAfterPairing(s: System, id: Id)
    requires AboutToCommit(s, id)
    ensures Next(Next(s, CommitStep(id, true), false), FinalizeStep(id, true), false).v.stored == Some(From(id))
  {
    hide Noted;
    var committed := Next(s, CommitStep(id, true), false);
    assert committed.v == s.v && committed.now == s.now && committed.tasks[id] == Finalizing(true, s.tasks[id].deadline);
  }

  lemma RunOf(s: System, before: seq<Action>, action: Action, strict: bool)
    ensures Run(s, before + [action], strict) == Next(Run(s, before, strict), action, strict)
  {
    assert (before + [action])[..|before|] == before;
  }

  lemma RunOfTwo(s: System, first: Action, second: Action, rest: seq<Action>, strict: bool)
    ensures Run(s, [first, second] + rest, strict) == Run(Next(Next(s, first, strict), second, strict), rest, strict)
  {
    RunOf(s, [], first, strict);
    RunOf(s, [first], second, strict);
    assert [] + [first] == [first] && [first] + [second] == [first, second];
    hide Next;
    RunJoins(s, [first, second], rest, strict);
  }

  lemma PublishedAndBegun(s: System)
    requires s == Init(None)
    ensures
      var spawned := Next(Next(s, CheckStartStep, true), SpawnStep(1, true), true);
      Next(Next(spawned, PublishStep, true), BeginStep(1), true)
      == System(Service(Some(Session(1, AwaitingDevice, 300, None)), None, {}), 0, map[1 := Accepting(300)], Idle, [])
  {
    var spawned := Next(Next(s, CheckStartStep, true), SpawnStep(1, true), true);
    assert spawned == System(Service(None, None, {}), 0, map[1 := Begin], Spawned(1, 300), []);
  }

  lemma AcceptedAndCancelled(s: System)
    requires s == System(Service(Some(Session(1, AwaitingDevice, 300, None)), None, {}), 0, map[1 := Accepting(300)], Idle, [])
    ensures CancelledWhileAccepting(Next(Next(s, AcceptStep(1, true), true), CancelStep(1), true), 1)
  {
    var accepted := Next(s, AcceptStep(1, true), true);
    assert accepted.v == s.v && accepted.now == 0 && accepted.tasks[1] == Entering(300);
  }

  /** That state is reached. */
  lemma CancelledWhileAcceptingIsReached()
    ensures exists actions: seq<Action> :: CancelledWhileAccepting(Run(Init(None), actions, true), 1)
  {
    var s := Init(None);
    var middle := [PublishStep, BeginStep(1)] + ([AcceptStep(1, true), CancelStep(1)] + []);
    PublishedAndBegun(s);
    hide Next, CancelledWhileAccepting;
    RunOfTwo(s, CheckStartStep, SpawnStep(1, true), middle, true);
    var spawned := Next(Next(s, CheckStartStep, true), SpawnStep(1, true), true);
    RunOfTwo(spawned, PublishStep, BeginStep(1), [AcceptStep(1, true), CancelStep(1)] + [], true);
    var begun := Next(Next(spawned, PublishStep, true), BeginStep(1), true);
    AcceptedAndCancelled(begun);
    RunOfTwo(begun, AcceptStep(1, true), CancelStep(1), [], true);
    assert CancelledWhileAccepting(Run(Init(None), [CheckStartStep, SpawnStep(1, true)] + middle, true), 1);
  }
}
