/** The run protocol as a state machine: `execute`, `publish_event` and `_drive`
    in any number of concurrent coroutines. Each stretch of code between two
    awaits is one atomic step.

    Fields marked "history" record the past for the theorems; no step reads them
    to decide what to do. */
module Protocol {
  import opened Types
  import opened RunTable
  import Recipients

  const MAX_CHAIN_DEPTH: nat := 8

  // ----- one call of `execute` -----

  datatype ExecResult = Created(run: RunId) | Existing(run: RunId) | UniqueViolation

  datatype CallPc =
    | AtKeyLookup
    | AtActiveLookup
    | AtInsert
    | AtSpawn(run: RunId)      // the row is inserted, the driver is not yet started
    | AtRecoverActive
    | AtRecoverKey
    | Returned(result: ExecResult)

  /** `since` is history: the clock when the call began. */
  datatype Call = Call(
    thread: Id,
    assistant: Id,
    triggeredBy: Id,
    key: Option<string>,
    depth: nat,
    since: nat,
    pc: CallPc)

  /** A key counts for lookups only when it is truthy. */
  predicate Truthy(key: Option<string>) {
    key.Some? && key.value != ""
  }

  function BeginCall(thread: Id, assistant: Id, triggeredBy: Id, key: Option<string>, depth: nat, since: nat): Call {
    Call(thread, assistant, triggeredBy, key, depth, since,
         if Truthy(key) then AtKeyLookup else AtActiveLookup)
  }

  function NewRow(c: Call): Run {
    Run(c.thread, c.assistant, c.triggeredBy, c.key, Pending, None, None)
  }

  // ----- one call of `publish_event` -----

  datatype PublishPc = AtMembers | AtAppend | AtBroadcast | AtInvoke

  /** `rest` are the recipients still to be considered for auto-invocation.
      `decided` and `since` are history: the recipients considered so far, each
      with whether it was invoked, and the clock when the publication began. */
  datatype Publication = Publication(
    event: Event,
    pc: PublishPc,
    members: map<Id, bool>,
    rest: seq<Id>,
    depth: nat,
    decided: seq<(Id, bool)>,
    since: nat)

  /** Recipients are normalized on entry; members are read only when some remain. */
  function BeginPublication(event: Event, since: nat): Publication {
    var recipients := Recipients.Normalize(event.recipients, event.author);
    Publication(event.(recipients := recipients), if recipients.Some? then AtMembers else AtAppend,
                map[], [], 0, [], since)
  }

  // ----- coroutines -----

  /** `parent` is the publication whose recipient loop made the call, if any. */
  datatype Work =
    | Idle
    | Publishing(publication: Publication)
    | Calling(parent: Option<Publication>, call: Call)

  /** Why a handler stopped short: a cancel was requested, the run's deadline
      passed, or an exception (possibly a TimeoutError) was raised. */
  datatype Cause = CancelRequested | DeadlinePassed | Raised | RaisedTimeout

  /** Where `_drive` stands. `guarded` tells whether it is still inside its `try`. */
  datatype Phase =
    | Scheduled
    | Lost                                            // cancelled before its first step
    | Starting                                        // about to write status running
    | Announcing                                      // publishing run.started
    | Consuming(open: map<Id, string>)                // the handler runs; open streams and their buffers
    | Unwinding(open: map<Id, string>, cause: Cause)  // open streams are being closed with an error
    | Writing(guarded: bool, status: Status, error: Option<ErrorCode>)
    | Ending(guarded: bool, status: Status)           // publishing the terminal event
    | Flushing
    | Gone
    | Leaked                                          // flushing was interrupted, the dict entries stay

  /** What interruptions have done to the events of a run: nothing; they came before
      `run.started` was logged; they struck a handler clause, which then logs no
      terminal event; or they came after `run.completed` was logged, so that a
      second terminal event follows. */
  datatype Spoil = Unspoilt | NoStart | NoEnd | TwoEnds

  /** `directed` and `spoil` are history: how many messages the handler has directed
      at recipients, and what interruptions did to the run's events. */
  datatype Owner =
    | External
    | Driver(run: RunId, depth: nat, phase: Phase, directed: nat, spoil: Spoil)

  /** `root` is history: the external coroutine at the start of the causal chain. */
  datatype Proc = Proc(owner: Owner, root: nat, work: Work)

  // ----- broadcasts -----

  datatype StreamCode = CodeCancelled | CodeTimeout | CodeHandlerError

  datatype Frame =
    | EventFrame(event: Event)
    | StartFrame(run: RunId, sid: Id)
    | DeltaFrame(sid: Id, text: string)
    | EndFrame(sid: Id, error: Option<StreamCode>)

  predicate IsStreamFrame(f: Frame) {
    !f.EventFrame?
  }

  // ----- the whole state -----

  /** `members[t][i]` tells whether member `i` of thread `t` is an assistant.
      `clock` and `births` are history: the number of steps taken, and the root of
      the coroutine that inserted each row. */
  datatype State = State(
    runs: seq<Run>,
    events: seq<Event>,
    wire: seq<Frame>,
    members: map<Id, map<Id, bool>>,
    handlers: set<Id>,
    autoInvoke: bool,
    tasks: set<RunId>,
    depths: map<RunId, nat>,
    procs: seq<Proc>,
    clock: nat,
    births: seq<nat>)

  predicate Init(s: State) {
    && s.runs == [] && s.events == [] && s.wire == [] && s.procs == []
    && s.tasks == {} && s.depths == map[] && s.clock == 0 && s.births == []
  }

  function MembersOf(s: State, thread: Id): map<Id, bool> {
    if thread in s.members then s.members[thread] else map[]
  }

  /** `chain_depth_for` */
  function DepthOf(s: State, run: RunId): nat {
    if run in s.depths then s.depths[run] else 0
  }

  function ParentDepth(s: State, e: Event): nat {
    if e.run.Some? then DepthOf(s, e.run.value) else 0
  }

  predicate FreshStream(s: State, sid: Id) {
    forall i | 0 <= i < |s.wire| && IsStreamFrame(s.wire[i]) :: s.wire[i].sid != sid
  }

  // ----- effects: what one step does to the shared state -----

  datatype Effect =
    | Quiet
    | Insert(row: Run)
    | Spawn(run: RunId, depth: nat)
    | Write(run: RunId, status: Status, error: Option<ErrorCode>, now: int)
    | Append(event: Event)
    | Emit(frame: Frame)
    | Release(run: RunId)

  function Perform(s: State, pid: nat, p: Proc, e: Effect): State
    requires pid < |s.procs|
    requires e.Write? ==> e.run < |s.runs|
  {
    var t := s.(procs := s.procs[pid := p], clock := s.clock + 1);
    match e
    case Quiet => t
    case Insert(row) => t.(runs := t.runs + [row], births := t.births + [p.root])
    case Spawn(r, depth) =>
      t.(tasks := t.tasks + {r}, depths := t.depths[r := depth],
         procs := t.procs + [Proc(Driver(r, depth, Scheduled, 0, Unspoilt), p.root, Idle)])
    case Write(r, status, error, now) => t.(runs := t.runs[r := WithStatus(t.runs[r], status, error, now)])
    case Append(event) => t.(events := t.events + [event])
    case Emit(frame) => t.(wire := t.wire + [frame])
    case Release(r) => t.(tasks := t.tasks - {r}, depths := t.depths - {r})
  }

  // ----- steps of a call -----

  function CallStep(runs: seq<Run>, c: Call): (Call, Effect)
    requires !c.pc.Returned?
    requires c.pc.AtKeyLookup? || c.pc.AtRecoverKey? ==> Truthy(c.key)
  {
    match c.pc
    case AtKeyLookup =>
      (match FindByKey(runs, c.thread, c.key.value)
       case Some(r) => (c.(pc := Returned(Existing(r))), Quiet)
       case None => (c.(pc := AtActiveLookup), Quiet))
    case AtActiveLookup =>
      (match FindActive(runs, c.thread, c.assistant)
       case Some(r) => (c.(pc := Returned(Existing(r))), Quiet)
       case None => (c.(pc := AtInsert), Quiet))
    case AtInsert =>
      if Admits(runs, NewRow(c)) then (c.(pc := AtSpawn(|runs|)), Insert(NewRow(c)))
      else (c.(pc := AtRecoverActive), Quiet)
    case AtSpawn(r) => (c.(pc := Returned(Created(r))), Spawn(r, c.depth))
    case AtRecoverActive =>
      (match FindActive(runs, c.thread, c.assistant)
       case Some(r) => (c.(pc := Returned(Existing(r))), Quiet)
       case None => (c.(pc := if Truthy(c.key) then AtRecoverKey else Returned(UniqueViolation)), Quiet))
    case AtRecoverKey =>
      (match FindByKey(runs, c.thread, c.key.value)
       case Some(r) => (c.(pc := Returned(Existing(r))), Quiet)
       case None => (c.(pc := Returned(UniqueViolation)), Quiet))
  }

  // ----- steps of a publication -----

  /** A recipient is invoked when it has a handler, the author is authorized, and
      it is an assistant in the members snapshot. */
  predicate Invokable(handlers: set<Id>, members: map<Id, bool>, recipient: Id, authorized: bool) {
    recipient in handlers && authorized && recipient in members && members[recipient]
  }

  /** A publication is rejected when a recipient is not a member, or when the log
      already holds an event with its id. */
  datatype PublishNext = Go(work: Work) | Done | Rejected

  function PublishStep(s: State, p: Publication, authorized: bool): (PublishNext, Effect)
    requires p.pc.AtMembers? ==> p.event.recipients.Some?
  {
    match p.pc
    case AtMembers =>
      var members := MembersOf(s, p.event.thread);
      if forall x | x in p.event.recipients.value :: x in members
      then (Go(Publishing(p.(pc := AtAppend, members := members))), Quiet)
      else (Rejected, Quiet)
    case AtAppend =>
      if exists i | 0 <= i < |s.events| :: s.events[i].id == p.event.id then (Rejected, Quiet)
      else (Go(Publishing(p.(pc := AtBroadcast))), Append(p.event))
    case AtBroadcast =>
      var depth := ParentDepth(s, p.event);
      var next :=
        if s.autoInvoke && p.event.kind.Message? && p.event.recipients.Some?
           && (p.event.run.Some? ==> depth < MAX_CHAIN_DEPTH)
        then Go(Publishing(p.(pc := AtInvoke, rest := p.event.recipients.value, depth := depth)))
        else Done;
      (next, Emit(EventFrame(p.event)))
    case AtInvoke =>
      if p.rest == [] then (Done, Quiet)
      else
        var invoked := Invokable(s.handlers, p.members, p.rest[0], authorized);
        var rest := p.(rest := p.rest[1..], decided := p.decided + [(p.rest[0], invoked)]);
        if invoked
        then (Go(Calling(Some(rest),
                         BeginCall(p.event.thread, p.rest[0], p.event.author, None, p.depth + 1, s.clock))), Quiet)
        else (Go(Publishing(rest)), Quiet)
  }

  // ----- the driver -----

  function StatusFor(cause: Cause): Status {
    if cause.CancelRequested? then Cancelled else Failed
  }

  function ErrorFor(cause: Cause): Option<ErrorCode> {
    match cause
    case CancelRequested => None
    case Raised => Some(HandlerError)
    case _ => Some(Timeout)
  }

  /** `_error_for`: a deadline reaches the handler as a cancellation. */
  function CodeFor(cause: Cause): StreamCode {
    match cause
    case Raised => CodeHandlerError
    case RaisedTimeout => CodeTimeout
    case _ => CodeCancelled
  }

  function TerminalKind(status: Status): Kind {
    match status
    case Completed => RunCompleted
    case Cancelled => RunCancelled
    case _ => RunFailed
  }

  predicate Interruptible(phase: Phase, cause: Cause) {
    match phase
    case Scheduled => cause.CancelRequested?
    case Lost | Gone | Leaked | Unwinding(_, _) => false
    case _ => true
  }

  /** What an exception delivered at an await does to `_drive`. Inside the `try`
      it selects a handler clause; inside a handler clause it goes straight to
      `finally`; inside `finally` it skips the dict cleanup. */
  function Interrupted(phase: Phase, cause: Cause): Phase
    requires Interruptible(phase, cause)
  {
    match phase
    case Scheduled => Lost
    case Consuming(open) =>
      if open == map[] then Writing(false, StatusFor(cause), ErrorFor(cause)) else Unwinding(open, cause)
    case Writing(false, _, _) => Flushing
    case Ending(false, _) => Flushing
    case Flushing => Leaked
    case _ => Writing(false, StatusFor(cause), ErrorFor(cause))
  }

  /** What an interruption does to a run's events. `logged` tells whether the
      lifecycle event being published is already in the log. An interruption of
      the handler spoils nothing, and a second one may undo what the first did. */
  function Spoiled(spoil: Spoil, phase: Phase, logged: bool): Spoil {
    match phase
    case Starting => NoStart
    case Announcing => if logged then spoil else NoStart
    case Writing(false, _, _) => if spoil.Unspoilt? then NoEnd else if spoil.TwoEnds? then Unspoilt else spoil
    case Ending(true, _) => if logged then TwoEnds else spoil
    case Ending(false, _) => if spoil.Unspoilt? && !logged then NoEnd else spoil
    case _ => spoil
  }

  predicate IsLogged(w: Work) {
    w.Publishing? && (w.publication.pc.AtBroadcast? || w.publication.pc.AtInvoke?)
  }

  /** An exception reaches a coroutine at its current await. */
  function Raise(o: Owner, w: Work, cause: Cause): Owner
    requires o.Driver? ==> Interruptible(o.phase, cause)
  {
    match o
    case External => External
    case Driver(r, d, phase, n, spoil) => Driver(r, d, Interrupted(phase, cause), n, Spoiled(spoil, phase, IsLogged(w)))
  }

  /** The phase after the current publication returned. */
  function AfterPublish(o: Owner): Owner {
    match o
    case External => External
    case Driver(_, _, Announcing, _, _) => o.(phase := Consuming(map[]))
    case Driver(_, _, Ending(_, _), _, _) => o.(phase := Flushing)
    case _ => o
  }

  function RunEvent(s: State, r: RunId, kind: Kind, stamp: Stamp): Event
    requires r < |s.runs|
  {
    Event(stamp.id, stamp.createdAt, s.runs[r].thread, Some(r), s.runs[r].assistant, None, kind, "", false)
  }

  /** The id and time a step stamps on what it writes. */
  datatype Stamp = Stamp(id: Id, createdAt: int)

  datatype Choice =
    | Advance(stamp: Stamp, authorized: bool)
    | Interrupt(cause: Cause)
    | Yield(kind: Kind, recipients: Option<seq<Id>>, text: string, stamp: Stamp)
    | OpenStream(sid: Id)
    | AppendStream(sid: Id, text: string)
    | CloseStream(sid: Id, kind: Kind, createdAt: int)
    | FailStream(sid: Id, code: StreamCode)
    | Invoke(assistant: Id)
    | Return

  /** The handler has control: it may yield, use its streams, invoke or return. */
  predicate InHandler(p: Proc) {
    p.owner.Driver? && p.owner.phase.Consuming? && p.work.Idle?
  }

  /** What `WellTyped` keeps: the facts every step relies on to be defined. */
  predicate WellTyped(s: State, p: Proc) {
    && (p.owner.Driver? ==> p.owner.run < |s.runs|)
    && (p.work.Publishing? && p.work.publication.pc.AtMembers? ==> p.work.publication.event.recipients.Some?)
    && (p.work.Calling? && (p.work.call.pc.AtKeyLookup? || p.work.call.pc.AtRecoverKey?) ==> Truthy(p.work.call.key))
    && (p.owner.Driver? && p.work != Idle ==> Interruptible(p.owner.phase, Raised))
  }

  /** Between calls and publications `_drive` goes on by itself in these phases. */
  predicate DriverCanStep(o: Owner) {
    o.Driver? && (o.phase.Scheduled? || o.phase.Starting? || o.phase.Writing? || o.phase.Flushing?)
  }

  predicate Enabled(s: State, p: Proc, c: Choice) {
    match c
    case Advance(_, _) =>
      || p.work != Idle
      || DriverCanStep(p.owner)
    case Interrupt(cause) => if p.owner.External? then p.work != Idle else Interruptible(p.owner.phase, cause)
    case Yield(kind, _, _, _) => InHandler(p) && p.owner.phase.open == map[] && IsHandlerKind(kind)
    case OpenStream(sid) => InHandler(p) && FreshStream(s, sid)
    case AppendStream(sid, _) => InHandler(p) && sid in p.owner.phase.open
    case CloseStream(sid, kind, _) => InHandler(p) && sid in p.owner.phase.open && (kind.Message? || kind.Reasoning?)
    case FailStream(sid, code) =>
      && p.owner.Driver?
      && (if p.owner.phase.Unwinding? then sid in p.owner.phase.open && code == CodeFor(p.owner.phase.cause)
          else InHandler(p) && sid in p.owner.phase.open)
    case Invoke(a) =>
      && InHandler(p)
      && p.owner.run < |s.runs|
      && Invokable(s.handlers, MembersOf(s, s.runs[p.owner.run].thread), a, true)
    case Return => InHandler(p) && p.owner.phase.open == map[]
  }

  /** The step of a coroutine that is inside a call or a publication. */
  function WorkStep(s: State, p: Proc, authorized: bool): (Proc, Effect)
    requires WellTyped(s, p) && p.work != Idle
  {
    match p.work
    case Publishing(publication) =>
      (match PublishStep(s, publication, authorized)
       case (Go(work), e) => (p.(work := work), e)
       case (Done, e) => (p.(work := Idle, owner := AfterPublish(p.owner)), e)
       case (Rejected, e) => (p.(work := Idle, owner := Raise(p.owner, p.work, Raised)), e))
    case Calling(parent, call) =>
      if call.pc.Returned? then
        match parent
        case None => (p.(work := Idle), Quiet)
        case Some(publication) =>
          if call.pc.result.UniqueViolation? then (p.(work := Idle, owner := Raise(p.owner, p.work, Raised)), Quiet)
          else (p.(work := Publishing(publication)), Quiet)
      else
        var (call', e) := CallStep(s.runs, call);
        (p.(work := Calling(parent, call')), e)
  }

  /** The step of a driver between its calls and publications. */
  function DriverStep(s: State, p: Proc, stamp: Stamp): (Proc, Effect)
    requires WellTyped(s, p) && DriverCanStep(p.owner) && p.work.Idle?
  {
    var o := p.owner;
    match o.phase
    case Scheduled => (p.(owner := o.(phase := Starting)), Quiet)
    case Starting =>
      (p.(owner := o.(phase := Announcing),
          work := Publishing(BeginPublication(RunEvent(s, o.run, RunStarted, stamp), s.clock))),
       Write(o.run, Running, None, stamp.createdAt))
    case Writing(guarded, status, error) =>
      (p.(owner := o.(phase := Ending(guarded, status)),
          work := Publishing(BeginPublication(RunEvent(s, o.run, TerminalKind(status), stamp), s.clock))),
       Write(o.run, status, error, stamp.createdAt))
    case Flushing => (p.(owner := o.(phase := Gone)), Release(o.run))
  }

  function FailStreamStep(p: Proc, sid: Id, code: StreamCode): (Proc, Effect)
    requires p.owner.Driver? && (p.owner.phase.Unwinding? || p.owner.phase.Consuming?)
  {
    var o := p.owner;
    var open := o.phase.open - {sid};
    var phase :=
      if o.phase.Consuming? then Consuming(open)
      else if open == map[] then Writing(false, StatusFor(o.phase.cause), ErrorFor(o.phase.cause))
      else Unwinding(open, o.phase.cause);
    (p.(owner := o.(phase := phase)), Emit(EndFrame(sid, Some(code))))
  }

  /** What the handler does while it has control. */
  function HandlerStep(s: State, p: Proc, c: Choice): (Proc, Effect)
    requires WellTyped(s, p) && InHandler(p) && Enabled(s, p, c)
    requires !c.Advance? && !c.Interrupt? && !c.FailStream?
  {
    var o := p.owner;
    var row := s.runs[o.run];
    match c
    case Yield(kind, recipients, text, stamp) =>
      var event := Event(stamp.id, stamp.createdAt, row.thread, Some(o.run), row.assistant, recipients, kind, text,
        false);
      var directs := kind.Message? && Recipients.Normalize(recipients, row.assistant).Some?;
      (p.(owner := o.(directed := o.directed + if directs then 1 else 0),
          work := Publishing(BeginPublication(event, s.clock))), Quiet)
    case OpenStream(sid) =>
      (p.(owner := o.(phase := Consuming(o.phase.open[sid := ""]))), Emit(StartFrame(o.run, sid)))
    case AppendStream(sid, text) =>
      if text == "" then (p, Quiet)
      else (p.(owner := o.(phase := Consuming(o.phase.open[sid := o.phase.open[sid] + text]))),
        Emit(DeltaFrame(sid, text)))
    case CloseStream(sid, kind, createdAt) =>
      var event := Event(sid, createdAt, row.thread, Some(o.run), row.assistant, None, kind, o.phase.open[sid], true);
      (p.(owner := o.(phase := Consuming(o.phase.open - {sid})),
          work := Publishing(BeginPublication(event, s.clock))), Emit(EndFrame(sid, None)))
    case Invoke(a) =>
      (p.(work := Calling(None, BeginCall(row.thread, a, row.assistant, None, 0, s.clock))), Quiet)
    case Return => (p.(owner := o.(phase := Writing(true, Completed, None))), Quiet)
  }

  function LocalStep(s: State, p: Proc, c: Choice): (Proc, Effect)
    requires WellTyped(s, p) && Enabled(s, p, c)
  {
    match c
    case Advance(stamp, authorized) => if p.work != Idle then WorkStep(s, p, authorized) else DriverStep(s, p, stamp)
    case Interrupt(cause) => (p.(owner := Raise(p.owner, p.work, cause), work := Idle), Quiet)
    case FailStream(sid, code) => FailStreamStep(p, sid, code)
    case _ => HandlerStep(s, p, c)
  }

  // ----- the machine -----

  datatype Action =
    | PublishExternally(event: Event)
    | InvokeExternally(thread: Id, assistant: Id, triggeredBy: Id, key: Option<string>)
    | AddMember(thread: Id, member: Id, isAssistant: bool)
    | RemoveMember(thread: Id, member: Id)
    | Register(handler: Id)
    | Act(pid: nat, choice: Choice)

  predicate CanApply(s: State, a: Action) {
    match a
    case PublishExternally(e) => e.run.None? && !e.streamed
    case Act(pid, c) => pid < |s.procs| && WellTyped(s, s.procs[pid]) && Enabled(s, s.procs[pid], c)
    case _ => true
  }

  function Admit(s: State, work: Work): State {
    s.(procs := s.procs + [Proc(External, |s.procs|, work)], clock := s.clock + 1)
  }

  function Apply(s: State, a: Action): State
    requires CanApply(s, a)
  {
    match a
    case PublishExternally(e) => Admit(s, Publishing(BeginPublication(e, s.clock)))
    case InvokeExternally(t, assistant, author, key) =>
      Admit(s, Calling(None, BeginCall(t, assistant, author, key, 0, s.clock)))
    case AddMember(t, m, isAssistant) =>
      var before := MembersOf(s, t);
      s.(members := s.members[t := if m in before then before else before[m := isAssistant]], clock := s.clock + 1)
    case RemoveMember(t, m) => s.(members := s.members[t := MembersOf(s, t) - {m}], clock := s.clock + 1)
    case Register(h) => s.(handlers := s.handlers + {h}, clock := s.clock + 1)
    case Act(pid, c) =>
      var (p, e) := LocalStep(s, s.procs[pid], c);
      Perform(s, pid, p, e)
  }

  /** An execution: `tr[i + 1]` follows from `tr[i]` by `acts[i]`. */
  ghost predicate Behaviour(tr: seq<State>, acts: seq<Action>) {
    && |tr| == |acts| + 1
    && Init(tr[0])
    && forall i | 0 <= i < |acts| :: CanApply(tr[i], acts[i]) && tr[i + 1] == Apply(tr[i], acts[i])
  }
}
