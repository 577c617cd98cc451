/** One request through Recover, Logger, Timeout and Metrics: the handler on its
    own goroutine, the watcher racing it, the deadline, and Recover above both.

    Every method of the timeout writer holds its mutex, so it is one atomic
    step.  A handler's first write or flush takes it twice: Metrics' recorder
    sends the status it implies before it passes the call on, and the watcher
    may come in between.  A run is any sequence of steps; a step that is not
    enabled where it comes up does nothing, so every interleaving is a run. */
module TimeoutProtocol {
  import opened Options
  import opened Decimal
  import opened ResponseModel

  // --- what a handler does, and what that should look like -----------------

  datatype Op =
    | SetHeader(name: string, values: seq<string>)
    | DelHeader(name: string)
    | SendStatus(code: nat)
    | SendBody(bytes: string)
    | Flush

  function Perform(w: Writer, op: Op): (r: Writer)
    ensures LayersOf(r) == LayersOf(w)
  {
    match op
    case SetHeader(name, values) => MergeHeader(w, map[name := values])
    case DelHeader(name) => DeleteHeader(w, name)
    case SendStatus(code) => WriteHeader(w, code)
    case SendBody(bytes) => Write(w, bytes).0
    case Flush => ResponseModel.Flush(w)
  }

  // The status line an operation commits to, if it is the first to do so.
  predicate Commits(op: Op) {
    op.SendStatus? || op.SendBody? || op.Flush?
  }

  function CodeOf(op: Op): nat {
    if op.SendStatus? then op.code else OK
  }

  function StageOne(header: Header, op: Op): Header {
    match op
    case SetHeader(name, values) => header[name := values]
    case DelHeader(name) => header - {name}
    case _ => header
  }

  function Staged(ops: seq<Op>): Header {
    if ops == [] then map[] else StageOne(Staged(ops[..|ops| - 1]), ops[|ops| - 1])
  }

  predicate Started(ops: seq<Op>) {
    exists i :: 0 <= i < |ops| && Commits(ops[i])
  }

  function FirstCommit(ops: seq<Op>): (i: nat)
    requires Started(ops)
    ensures i < |ops| && Commits(ops[i]) && !Started(ops[..i])
  {
    if Started(ops[..|ops| - 1]) then FirstCommit(ops[..|ops| - 1]) else |ops| - 1
  }

  function Emits(op: Op): seq<Event> {
    match op
    case SendBody(bytes) => [Body(bytes)]
    case Flush => [Flushed]
    case _ => []
  }

  function Emitted(ops: seq<Op>): seq<Event> {
    if ops == [] then [] else Emitted(ops[..|ops| - 1]) + Emits(ops[|ops| - 1])
  }

  // The first committing operation fixes the status and the headers staged
  // before it.
  function StatusLine(base: Header, ops: seq<Op>): Event
    requires Started(ops)
  {
    var i := FirstCommit(ops);
    Status(CodeOf(ops[i]), base + Staged(ops[..i]))
  }

  // The response of a handler that has the connection to itself.
  function Output(base: Header, ops: seq<Op>): seq<Event> {
    if Started(ops) then [StatusLine(base, ops)] + Emitted(ops) else []
  }

  // --- the state of one request --------------------------------------------

  datatype Panic = Abort | Ordinary

  datatype Handler = Running | Returned | Panicked(v: Panic)

  datatype Context = Live | Expired | Canceled

  datatype Watcher =
    | Waiting
    | Finished             // the handler was in time
    | Left                 // stopped, and nothing to answer
    | Answering(sent: nat) // writing the TIMEOUT problem, in three steps
    | Unwinding(v: Panic)  // the panic is on its way to Recover
    | Recovered            // Recover is done with an ordinary panic
    | Aborted              // net/http got http.ErrAbortHandler back

  // What does not change while a request is served.
  datatype Site = Site(base: Header, timeoutBody: string, internalBody: string)

  // `calls` are the operations the handler has begun, and `half` is the last of
  // them while only the status it implies is out.  What it did under the mutex
  // until the watcher decided is `seen`, what it did after that `late`.
  datatype State = State(chain: Chain, handler: Handler, watcher: Watcher, context: Context,
                         calls: seq<Op>, half: Option<Op>, seen: seq<Op>, late: seq<Op>)

  // Logger's recorder over Recover's over the connection.
  predicate IsOutside(w: Writer) {
    w.Recorded? && w.under.Recorded? && w.under.under.Conn?
  }

  // Metrics' recorder over the timeout writer over what is outside Timeout.
  predicate IsChain(w: Writer) {
    w.Recorded? && w.under.Timed? && IsOutside(w.under.under)
  }

  type Outside = w: Writer | IsOutside(w) witness NewOutside(map[])
  type Chain = w: Writer | IsChain(w) witness NewChain(map[])

  function NewOutside(base: Header): Writer {
    Recorded(NewRecorder(), Recorded(NewRecorder(), Conn(NewConnection(base))))
  }

  function NewChain(base: Header): Writer {
    Recorded(NewRecorder(), Timed(Timeout(map[], false, false), NewOutside(base)))
  }

  lemma OutsideLayers(w: Writer)
    ensures IsOutside(w) <==> LayersOf(w) == RecorderOver(RecorderOver(Bottom))
  {
    if w.Recorded? {
      assert LayersOf(w.under) == RecorderOver(Bottom) <==> w.under.Recorded? && LayersOf(w.under.under) == Bottom;
    }
  }

  lemma ChainLayers(w: Writer)
    ensures IsChain(w) <==> LayersOf(w) == RecorderOver(TimeoutOver(RecorderOver(RecorderOver(Bottom))))
  {
    if w.Recorded? && w.under.Timed? {
      assert LayersOf(w.under) == TimeoutOver(LayersOf(w.under.under));
      OutsideLayers(w.under.under);
    }
  }

  function Metrics(w: Chain): Recorder { w.rec }
  function TimeoutOf(w: Chain): Timeout { w.under.tw }
  function OutsideOf(w: Chain): Outside { w.under.under }
  function Logger(w: Chain): Recorder { OutsideOf(w).rec }
  function RecoverWriter(w: Chain): Writer { OutsideOf(w).under }
  function Wire(w: Chain): Connection { RecoverWriter(w).under.conn }

  function PutOutside(w: Chain, outside: Outside): Chain {
    Recorded(w.rec, Timed(w.under.tw, outside))
  }

  function HandlerStep(w: Chain, op: Op): Chain {
    ChainLayers(w);
    ChainLayers(Perform(w, op));
    Perform(w, op)
  }

  // --- the timeout layer's own moves ---------------------------------------

  // In time: a handler that wrote nothing still gets its headers.
  function Finish(w: Chain): Chain {
    var tw, outside := TimeoutOf(w), OutsideOf(w);
    OutsideLayers(outside);
    OutsideLayers(MergeHeader(outside, tw.staged));
    Recorded(w.rec, Timed(tw.(closed := true), if tw.wroteHeader then outside else MergeHeader(outside, tw.staged)))
  }

  function Stop(w: Chain): Chain {
    Recorded(w.rec, Timed(TimeoutOf(w).(closed := true), OutsideOf(w)))
  }

  // The TIMEOUT problem goes out in three calls on the writer outside.
  function TimeoutStep(site: Site, outside: Outside, sent: nat): Outside {
    var r := if sent == 0 then MergeHeader(outside, ProblemHeader(site.timeoutBody))
      else if sent == 1 then WriteHeader(outside, 503)
      else Write(outside, site.timeoutBody).0;
    OutsideLayers(outside);
    OutsideLayers(r);
    r
  }

  // Recover answers through its own recorder, underneath Logger's, and only if
  // nothing was written through that.
  function RecoverStep(site: Site, outside: Outside): Outside {
    var w := outside.under;
    var r := if w.rec.wroteHeader then w else WriteProblem(w, 500, site.internalBody);
    OutsideLayers(outside);
    OutsideLayers(Recorded(outside.rec, r));
    Recorded(outside.rec, r)
  }

  // The operations a recorder sends an implicit status for.
  predicate Implies(op: Op) {
    op.SendBody? || op.Flush?
  }

  // What the handler does while it holds the mutex once.
  function Section(s: State, op: Op): State {
    if s.watcher.Waiting? then s.(chain := HandlerStep(s.chain, op), seen := s.seen + [op])
    else s.(chain := HandlerStep(s.chain, op), late := s.late + [op])
  }

  // Undisturbed, a call is its two sections.
  lemma CallIsItsSections(w: Chain, op: Op)
    requires Implies(op) && !Metrics(w).wroteHeader
    ensures HandlerStep(w, op) == HandlerStep(HandlerStep(w, SendStatus(OK)), op)
  {
  }

  datatype Step =
    | Handle(op: Op)
    | Resume
    | HandlerReturns
    | HandlerPanics(v: Panic)
    | DeadlinePasses
    | ClientLeaves
    | TakeDone
    | TakePanic
    | TakeContext
    | AnswerTimeout
    | Recover

  function Init(site: Site): State {
    State(NewChain(site.base), Running, Waiting, Live, [], None, [], [])
  }

  // The handler is between two operations.
  predicate Ready(s: State) {
    s.handler.Running? && s.half.None?
  }

  function Next(site: Site, s: State, step: Step): State {
    match step
    case Handle(op) =>
      if !Ready(s) then s
      else if Implies(op) && !Metrics(s.chain).wroteHeader then
        Section(s.(calls := s.calls + [op], half := Some(op)), SendStatus(OK))
      else Section(s.(calls := s.calls + [op]), op)
    case Resume =>
      if s.handler.Running? && s.half.Some? then Section(s.(half := None), s.half.value) else s
    case HandlerReturns => if Ready(s) then s.(handler := Returned) else s
    case HandlerPanics(v) => if Ready(s) then s.(handler := Panicked(v)) else s
    case DeadlinePasses => if s.context.Live? then s.(context := Expired) else s
    case ClientLeaves => if s.context.Live? then s.(context := Canceled) else s
    case TakeDone =>
      if s.watcher.Waiting? && s.handler.Returned? then s.(watcher := Finished, chain := Finish(s.chain)) else s
    case TakePanic =>
      if s.watcher.Waiting? && s.handler.Panicked? then s.(watcher := Unwinding(s.handler.v)) else s
    case TakeContext =>
      if !s.watcher.Waiting? || s.context.Live? then s
      else if s.context.Canceled? || TimeoutOf(s.chain).wroteHeader then s.(watcher := Left, chain := Stop(s.chain))
      else s.(watcher := Answering(0), chain := Stop(s.chain))
    case AnswerTimeout =>
      if s.watcher.Answering? && s.watcher.sent < 3 then
        s.(watcher := Answering(s.watcher.sent + 1),
           chain := PutOutside(s.chain, TimeoutStep(site, OutsideOf(s.chain), s.watcher.sent)))
      else s
    case Recover =>
      if !s.watcher.Unwinding? then s
      else if s.watcher.v.Abort? then s.(watcher := Aborted)
      else s.(watcher := Recovered, chain := PutOutside(s.chain, RecoverStep(site, OutsideOf(s.chain))))
  }

  // The state after a run.
  function Exec(site: Site, steps: seq<Step>): State {
    if steps == [] then Init(site) else Next(site, Exec(site, steps[..|steps| - 1]), steps[|steps| - 1])
  }

  // --- while the writer is open, the wire shows the handler's output -------

  lemma {:induction false} NothingEmitted(ops: seq<Op>)
    requires !Started(ops)
    ensures Emitted(ops) == []
  {
    if ops == [] {
    } else {
      var front := ops[..|ops| - 1];
      assert forall i :: 0 <= i < |front| ==> front[i] == ops[i];
      assert !Started(front);
      NothingEmitted(front);
      assert !Commits(ops[|ops| - 1]);
    }
  }

  lemma StartedGrows(ops: seq<Op>, op: Op)
    ensures (ops + [op])[..|ops|] == ops
    ensures Started(ops + [op]) <==> Started(ops) || Commits(op)
    ensures Started(ops) ==> FirstCommit(ops + [op]) == FirstCommit(ops)
    ensures !Started(ops) && Commits(op) ==> FirstCommit(ops + [op]) == |ops|
  {
    var more := ops + [op];
    assert more[..|more| - 1] == ops;
    if Started(ops) {
      var i :| 0 <= i < |ops| && Commits(ops[i]);
      assert Commits(more[i]);
    } else if Commits(op) {
      assert Commits(more[|ops|]);
    }
  }

  lemma EmittedGrows(ops: seq<Op>, op: Op)
    ensures Emitted(ops + [op]) == Emitted(ops) + Emits(op)
    ensures Staged(ops + [op]) == StageOne(Staged(ops), op)
  {
    assert (ops + [op])[..|ops|] == ops;
  }

  lemma StatusLineIsKept(base: Header, ops: seq<Op>, op: Op)
    requires Started(ops)
    ensures Started(ops + [op]) && StatusLine(base, ops + [op]) == StatusLine(base, ops)
  {
    StartedGrows(ops, op);
    var i := FirstCommit(ops);
    assert (ops + [op])[..i] == ops[..i] && (ops + [op])[i] == ops[i];
  }

  lemma StatusLineStarts(base: Header, ops: seq<Op>, op: Op)
    requires !Started(ops) && Commits(op)
    ensures Started(ops + [op]) && StatusLine(base, ops + [op]) == Status(CodeOf(op), base + Staged(ops))
  {
    StartedGrows(ops, op);
  }

  lemma OutputContinues(base: Header, ops: seq<Op>, op: Op)
    requires Started(ops)
    ensures Output(base, ops + [op]) == Output(base, ops) + Emits(op)
  {
    StatusLineIsKept(base, ops, op);
    EmittedGrows(ops, op);
    var line := [StatusLine(base, ops)];
    assert line + (Emitted(ops) + Emits(op)) == (line + Emitted(ops)) + Emits(op);
  }

  lemma OutputStarts(base: Header, ops: seq<Op>, op: Op)
    requires !Started(ops) && Commits(op)
    ensures Output(base, ops + [op]) == [Status(CodeOf(op), base + Staged(ops))] + Emits(op)
  {
    StatusLineStarts(base, ops, op);
    EmittedGrows(ops, op);
    NothingEmitted(ops);
    assert [] + Emits(op) == Emits(op);
  }

  lemma OutputGrows(base: Header, ops: seq<Op>, op: Op)
    ensures Started(ops + [op]) <==> Started(ops) || Commits(op)
    ensures Output(base, ops + [op]) ==
              if Started(ops) then Output(base, ops) + Emits(op)
              else if Commits(op) then [Status(CodeOf(op), base + Staged(ops))] + Emits(op)
              else []
  {
    StartedGrows(ops, op);
    if Started(ops) {
      OutputContinues(base, ops, op);
    } else if Commits(op) {
      OutputStarts(base, ops, op);
    }
  }

  // What Recover's and Logger's recorders and the connection show.
  ghost predicate OnWire(w: Outside, events: seq<Event>) {
    var c := w.under.under.conn;
    Sound(c) && Shows(w.rec, c) && Shows(w.under.rec, c) && c.superfluous == 0 && c.log == events
  }

  lemma OnWireIsAligned(w: Outside)
    ensures Aligned(w) && ConnOf(w).superfluous == 0 <==> OnWire(w, ConnOf(w).log)
    ensures ConnOf(w) == w.under.under.conn
  {
    assert ConnOf(w.under) == w.under.under.conn;
    assert Aligned(w.under) <==> Sound(ConnOf(w)) && Shows(w.under.rec, ConnOf(w));
  }

  ghost predicate Open(base: Header, w: Chain, ops: seq<Op>) {
    && OnWire(OutsideOf(w), Output(base, ops))
    && TimeoutOf(w) == Timeout(Staged(ops), Started(ops), false)
    && Wire(w).wroteHeader == Started(ops)
    && (!Started(ops) ==> Wire(w).header == base)
    && Shows(Metrics(w), Wire(w))
  }

  lemma OpenStart(base: Header)
    ensures Open(base, NewChain(base), [])
  {
  }

  // Setting headers touches the staged map and nothing else.
  lemma StagingIsLocal(w: Chain, op: Op)
    requires !Commits(op)
    ensures HandlerStep(w, op) ==
              Recorded(w.rec, Timed(TimeoutOf(w).(staged := StageOne(TimeoutOf(w).staged, op)), OutsideOf(w)))
  {
    match op
    case SetHeader(name, values) =>
      assert TimeoutOf(w).staged + map[name := values] == TimeoutOf(w).staged[name := values];
      assert MergeHeader(w, map[name := values]).under == MergeHeader(w.under, map[name := values]);
    case DelHeader(name) =>
      assert DeleteHeader(w, name).under == DeleteHeader(w.under, name);
  }

  lemma StagingKeepsOpen(base: Header, w: Chain, ops: seq<Op>, op: Op)
    requires Open(base, w, ops) && !Commits(op)
    ensures Open(base, HandlerStep(w, op), ops + [op])
  {
    StagingIsLocal(w, op);
    OutputGrows(base, ops, op);
    EmittedGrows(ops, op);
  }

  // What a committing operation does to the writer outside an open timeout
  // layer, once the status line is out.
  function Emit(outside: Writer, op: Op): Writer {
    match op
    case SendBody(bytes) => Write(outside, bytes).0
    case Flush => ResponseModel.Flush(outside)
    case _ => outside
  }

  lemma EmitOnWire(w: Outside, op: Op)
    requires OnWire(w, ConnOf(w).log) && ConnOf(w).wroteHeader
    ensures IsOutside(Emit(w, op))
    ensures var c, c' := ConnOf(w), ConnOf(Emit(w, op));
            OnWire(Emit(w, op), c.log + Emits(op)) && c'.header == c.header && c'.wroteHeader
  {
    OnWireIsAligned(w);
    OutsideLayers(w);
    OutsideLayers(Emit(w, op));
    WriteIsTransparent(w, if op.SendBody? then op.bytes else "");
    FlushIsTransparent(w);
    OnWireIsAligned(Emit(w, op));
  }

  lemma StartOnWire(w: Outside, header: Header, code: nat)
    requires OnWire(w, []) && !ConnOf(w).wroteHeader
    ensures var w' := WriteHeader(MergeHeader(w, header), code);
            && IsOutside(w')
            && OnWire(w', [Status(code, ConnOf(w).header + header)])
            && ConnOf(w').wroteHeader
  {
    OnWireIsAligned(w);
    OutsideLayers(w);
    MergeIsTransparent(w, header);
    WriteHeaderIsTransparent(MergeHeader(w, header), code);
    OutsideLayers(WriteHeader(MergeHeader(w, header), code));
    OnWireIsAligned(WriteHeader(MergeHeader(w, header), code));
  }

  // The status line, if there is none yet.
  function Start(w: Chain, code: nat): Writer {
    if TimeoutOf(w).wroteHeader then OutsideOf(w)
    else WriteHeader(MergeHeader(OutsideOf(w), TimeoutOf(w).staged), code)
  }

  lemma OpenTimeoutPassesThrough(w: Chain, op: Op)
    requires Commits(op) && !TimeoutOf(w).closed
    ensures var tw := TimeoutOf(w).(wroteHeader := true);
            && (op.SendStatus? ==> WriteHeader(w.under, op.code) == Timed(tw, Start(w, op.code)))
            && (op.SendBody? ==> Write(w.under, op.bytes) == (Timed(tw, Emit(Start(w, OK), op)), Write(Start(w, OK), op.bytes).1))
            && (op.Flush? ==> ResponseModel.Flush(w.under) == Timed(tw, Emit(Start(w, OK), op)))
  {
  }

  lemma StartedTimeoutPassesThrough(w: Chain, op: Op)
    requires Commits(op) && !op.SendStatus? && !TimeoutOf(w).closed && !TimeoutOf(w).wroteHeader
    ensures var tw, timed := TimeoutOf(w).(wroteHeader := true), WriteHeader(w.under, OK);
            && timed == Timed(tw, Start(w, OK))
            && (op.SendBody? ==> Write(timed, op.bytes) == (Timed(tw, Emit(Start(w, OK), op)), Write(Start(w, OK), op.bytes).1))
            && (op.Flush? ==> ResponseModel.Flush(timed) == Timed(tw, Emit(Start(w, OK), op)))
  {
  }

  // What the handler's committing operation does to an open chain: the status
  // line if there is none yet, then the operation's own event.
  lemma CommitPassesThrough(w: Chain, op: Op)
    requires Commits(op) && !TimeoutOf(w).closed && Metrics(w).wroteHeader == TimeoutOf(w).wroteHeader
    ensures var tw, metrics := TimeoutOf(w), Metrics(w);
            var n := if op.SendBody? then Write(Start(w, CodeOf(op)), op.bytes).1 else 0;
            HandlerStep(w, op) ==
              Recorded(Recorder(if tw.wroteHeader then metrics.status else CodeOf(op), metrics.bytes + n, true),
                       Timed(tw.(wroteHeader := true), Emit(Start(w, CodeOf(op)), op)))
  {
    OpenTimeoutPassesThrough(w, op);
    if !TimeoutOf(w).wroteHeader && !op.SendStatus? {
      StartedTimeoutPassesThrough(w, op);
    }
  }

  // The status line of an open chain is out after Start, with the headers
  // staged so far if it was not out before.
  lemma StartKeepsOpen(base: Header, w: Chain, ops: seq<Op>, op: Op)
    requires Open(base, w, ops) && Commits(op)
    ensures var started := Start(w, CodeOf(op));
            && IsOutside(started) && ConnOf(started).wroteHeader
            && OnWire(started, if Started(ops) then Output(base, ops) else [Status(CodeOf(op), base + Staged(ops))])
            && StatusOf(ConnOf(started)) == (if Started(ops) then Metrics(w).status else CodeOf(op))
            && BodyBytes(ConnOf(started).log) == Metrics(w).bytes
  {
    var outside := OutsideOf(w);
    OnWireIsAligned(outside);
    if !Started(ops) {
      StartOnWire(outside, Staged(ops), CodeOf(op));
      OnWireIsAligned(Start(w, CodeOf(op)));
      assert ConnOf(Start(w, CodeOf(op))).log[..0] == [];
    }
  }

  lemma BytesGrow(log: seq<Event>, op: Op)
    ensures BodyBytes(log + Emits(op)) == BodyBytes(log) + if op.SendBody? then |op.bytes| else 0
  {
    if Emits(op) != [] {
      assert (log + Emits(op))[..|log|] == log;
    } else {
      assert log + Emits(op) == log;
    }
  }

  lemma EmitIsCounted(w: Outside, op: Op)
    requires OnWire(w, ConnOf(w).log) && ConnOf(w).wroteHeader
    ensures var c, c' := ConnOf(w), ConnOf(Emit(w, op));
            && StatusOf(c') == StatusOf(c)
            && BodyBytes(c'.log) == BodyBytes(c.log) + (if op.SendBody? then Write(w, op.bytes).1 else 0)
  {
    OnWireIsAligned(w);
    EmitOnWire(w, op);
    OnWireIsAligned(Emit(w, op));
    BytesGrow(ConnOf(w).log, op);
    if op.SendBody? {
      WriteIsTransparent(w, op.bytes);
    }
  }

  lemma CommitOnWire(base: Header, w: Chain, ops: seq<Op>, op: Op)
    requires Open(base, w, ops) && Commits(op)
    ensures var r := Emit(Start(w, CodeOf(op)), op);
            IsOutside(r) && OnWire(r, Output(base, ops + [op])) && r.under.under.conn.wroteHeader
  {
    var started := Start(w, CodeOf(op));
    StartKeepsOpen(base, w, ops, op);
    OnWireIsAligned(started);
    EmitOnWire(started, op);
    OnWireIsAligned(Emit(started, op));
    OutputGrows(base, ops, op);
  }

  lemma CommitIsRecorded(base: Header, w: Chain, ops: seq<Op>, op: Op)
    requires Open(base, w, ops) && Commits(op)
    ensures IsOutside(Emit(Start(w, CodeOf(op)), op))
    ensures Shows(Metrics(HandlerStep(w, op)), Emit(Start(w, CodeOf(op)), op).under.under.conn)
  {
    var started := Start(w, CodeOf(op));
    StartKeepsOpen(base, w, ops, op);
    OnWireIsAligned(started);
    EmitIsCounted(started, op);
    CommitOnWire(base, w, ops, op);
    OnWireIsAligned(Emit(started, op));
    CommitPassesThrough(w, op);
  }

  lemma CommitKeepsOpen(base: Header, w: Chain, ops: seq<Op>, op: Op)
    requires Open(base, w, ops) && Commits(op)
    ensures Open(base, HandlerStep(w, op), ops + [op])
  {
    CommitOnWire(base, w, ops, op);
    CommitIsRecorded(base, w, ops, op);
    CommitPassesThrough(w, op);
    EmittedGrows(ops, op);
    StartedGrows(ops, op);
  }

  // Once the writer is closed, nothing the handler does gets outside.
  lemma ClosedIsSealed(w: Chain, op: Op)
    requires TimeoutOf(w).closed
    ensures var r := HandlerStep(w, op);
            && OutsideOf(r) == OutsideOf(w)
            && TimeoutOf(r).closed && TimeoutOf(r).wroteHeader == TimeoutOf(w).wroteHeader
            && (Metrics(w).wroteHeader ==> Metrics(r).wroteHeader && Metrics(r).status == Metrics(w).status)
  {
    if !Commits(op) {
      StagingIsLocal(w, op);
    } else {
      assert WriteHeader(w.under, CodeOf(op)) == w.under;
      assert op.SendBody? ==> Write(w.under, op.bytes) == (w.under, 0);
      assert op.Flush? ==> ResponseModel.Flush(w.under) == w.under;
    }
  }

  // --- every run ------------------------------------------------------------

  // The TIMEOUT problem as far as it has been sent.
  function TimeoutLog(site: Site, sent: nat): seq<Event> {
    if sent < 2 then []
    else
      [Status(503, site.base + ProblemHeader(site.timeoutBody))]
      + if sent == 2 then [] else [Body(site.timeoutBody)]
  }

  function InternalLog(site: Site): seq<Event> {
    [Status(500, site.base + ProblemHeader(site.internalBody)), Body(site.internalBody)]
  }

  // The timeout layer has committed what Metrics saw committed.
  ghost predicate Committed(w: Chain, ops: seq<Op>) {
    && TimeoutOf(w).wroteHeader == Started(ops)
    && (Started(ops) ==> Metrics(w).wroteHeader && Metrics(w).status == StatusOf(Wire(w)))
  }

  ghost predicate Phase(site: Site, s: State) {
    var w, outside, wire := s.chain, OutsideOf(s.chain), Wire(s.chain);
    Committed(w, s.seen) &&
    match s.watcher
    case Waiting => Open(site.base, w, s.seen) && s.late == []
    case Finished =>
      && s.handler.Returned? && s.late == []
      && TimeoutOf(w).closed && OnWire(outside, Output(site.base, s.seen))
      && Metrics(w).status == StatusOf(wire)
      && (!Started(s.seen) ==> wire.header == site.base + Staged(s.seen))
    case Left =>
      && TimeoutOf(w).closed && OnWire(outside, Output(site.base, s.seen))
      && (Started(s.seen) || s.context.Canceled?)
    case Answering(sent) =>
      && sent <= 3 && s.context.Expired?
      && !Started(s.seen) && TimeoutOf(w).closed && OnWire(outside, TimeoutLog(site, sent))
      && (sent < 2 ==> wire.header == if sent == 0 then site.base else site.base + ProblemHeader(site.timeoutBody))
    case Unwinding(v) =>
      s.handler == Panicked(v) && s.late == [] && Open(site.base, w, s.seen)
    case Aborted =>
      s.handler == Panicked(Abort) && s.late == [] && Open(site.base, w, s.seen)
    case Recovered =>
      && s.handler == Panicked(Ordinary) && s.late == []
      && (Started(s.seen) ==> OnWire(outside, Output(site.base, s.seen)))
      && (!Started(s.seen) ==>
            && Sound(wire) && wire.superfluous == 0 && wire.log == InternalLog(site)
            && Shows(RecoverWriter(w).rec, wire) && Logger(w) == NewRecorder())
  }

  lemma SectionKeepsPhase(site: Site, s: State, op: Op)
    requires Phase(site, s) && s.handler.Running?
    ensures Phase(site, Section(s, op))
  {
    if s.watcher.Waiting? {
      if Commits(op) {
        CommitKeepsOpen(site.base, s.chain, s.seen, op);
      } else {
        StagingKeepsOpen(site.base, s.chain, s.seen, op);
      }
    } else {
      ClosedIsSealed(s.chain, op);
    }
  }

  lemma HandlerKeepsPhase(site: Site, s: State, op: Op)
    requires Phase(site, s)
    ensures Phase(site, Next(site, s, Handle(op)))
  {
    if Ready(s) {
      if Implies(op) && !Metrics(s.chain).wroteHeader {
        SectionKeepsPhase(site, s.(calls := s.calls + [op], half := Some(op)), SendStatus(OK));
      } else {
        SectionKeepsPhase(site, s.(calls := s.calls + [op]), op);
      }
    }
  }

  lemma ResumeKeepsPhase(site: Site, s: State)
    requires Phase(site, s)
    ensures Phase(site, Next(site, s, Resume))
  {
    if s.handler.Running? && s.half.Some? {
      SectionKeepsPhase(site, s.(half := None), s.half.value);
    }
  }

  lemma FinishKeepsPhase(site: Site, s: State)
    requires Phase(site, s)
    ensures Phase(site, Next(site, s, TakeDone))
  {
    var outside := OutsideOf(s.chain);
    if s.watcher.Waiting? && !Started(s.seen) {
      OnWireIsAligned(outside);
      MergeIsTransparent(outside, Staged(s.seen));
      OutsideLayers(outside);
      OutsideLayers(MergeHeader(outside, Staged(s.seen)));
      OnWireIsAligned(MergeHeader(outside, Staged(s.seen)));
    }
  }

  // How far the TIMEOUT problem has got on the writer outside.
  ghost predicate Answered(site: Site, w: Outside, sent: nat) {
    && OnWire(w, TimeoutLog(site, sent))
    && (sent == 0 ==> w.under.under.conn.header == site.base)
    && (sent == 1 ==> w.under.under.conn.header == site.base + ProblemHeader(site.timeoutBody))
  }

  lemma AnswerOnWire(site: Site, w: Outside, sent: nat)
    requires sent < 3 && Answered(site, w, sent)
    ensures Answered(site, TimeoutStep(site, w, sent), sent + 1)
  {
    OnWireIsAligned(w);
    if sent == 0 {
      MergeIsTransparent(w, ProblemHeader(site.timeoutBody));
    } else if sent == 1 {
      WriteHeaderIsTransparent(w, 503);
    } else {
      WriteIsTransparent(w, site.timeoutBody);
    }
    OnWireIsAligned(TimeoutStep(site, w, sent));
  }

  lemma AnswerKeepsPhase(site: Site, s: State)
    requires Phase(site, s)
    ensures Phase(site, Next(site, s, AnswerTimeout))
  {
    if s.watcher.Answering? && s.watcher.sent < 3 {
      AnswerOnWire(site, OutsideOf(s.chain), s.watcher.sent);
    }
  }

  lemma ProblemOnWire(w: Writer, code: nat, body: string)
    requires Aligned(w) && ConnOf(w).log == []
    ensures var r := WriteProblem(w, code, body);
            && Aligned(r) && ConnOf(r).superfluous == ConnOf(w).superfluous
            && ConnOf(r).log == [Status(code, ConnOf(w).header + ProblemHeader(body)), Body(body)]
  {
    var header := ProblemHeader(body);
    SoundConn(w);
    MergeIsTransparent(w, header);
    WriteHeaderIsTransparent(MergeHeader(w, header), code);
    WriteIsTransparent(WriteHeader(MergeHeader(w, header), code), body);
  }

  lemma {:induction false} SoundConn(w: Writer)
    requires Aligned(w)
    ensures Sound(ConnOf(w))
  {
    if w.Recorded? {
      SoundConn(w.under);
    }
  }

  lemma RecoverOnWire(site: Site, w: Outside)
    requires OnWire(w, []) && w.under.under.conn.header == site.base
    ensures var r := RecoverStep(site, w);
            var c := r.under.under.conn;
            && Sound(c) && c.superfluous == 0 && c.log == InternalLog(site)
            && Shows(r.under.rec, c) && r.rec == w.rec
  {
    OnWireIsAligned(w);
    ProblemOnWire(w.under, 500, site.internalBody);
    var r := RecoverStep(site, w).under;
    assert ConnOf(r) == r.under.conn;
    SoundConn(r);
  }

  lemma RecoverKeepsPhase(site: Site, s: State)
    requires Phase(site, s)
    ensures Phase(site, Next(site, s, Recover))
  {
    if s.watcher == Unwinding(Ordinary) && !Started(s.seen) {
      var outside := OutsideOf(s.chain);
      assert BodyBytes([]) == 0;
      RecoverOnWire(site, outside);
    }
  }

  lemma WatcherKeepsPhase(site: Site, s: State, step: Step)
    requires Phase(site, s) && !step.Handle?
    ensures Phase(site, Next(site, s, step))
  {
    match step
    case Resume => ResumeKeepsPhase(site, s);
    case TakeDone => FinishKeepsPhase(site, s);
    case AnswerTimeout => AnswerKeepsPhase(site, s);
    case Recover => RecoverKeepsPhase(site, s);
    case _ =>
  }

  lemma {:induction false} EveryPhase(site: Site, steps: seq<Step>)
    ensures Phase(site, Exec(site, steps))
  {
    if steps == [] {
      OpenStart(site.base);
    } else {
      var before, step := Exec(site, steps[..|steps| - 1]), steps[|steps| - 1];
      EveryPhase(site, steps[..|steps| - 1]);
      if step.Handle? {
        HandlerKeepsPhase(site, before, step.op);
      } else {
        WatcherKeepsPhase(site, before, step);
      }
    }
  }

  // --- what the handler asked for, and what it did ------------------------------

  // A handler's operations, mutex by mutex: the first write or flush sends a
  // status of its own if there was none.
  function Sections(calls: seq<Op>): seq<Op> {
    if calls == [] then []
    else
      var before, op := calls[..|calls| - 1], calls[|calls| - 1];
      Sections(before) + if Implies(op) && !Started(before) then [SendStatus(OK), op] else [op]
  }

  lemma SectionsGrow(calls: seq<Op>, op: Op)
    ensures Sections(calls + [op]) ==
            Sections(calls) + if Implies(op) && !Started(calls) then [SendStatus(OK), op] else [op]
  {
    assert (calls + [op])[..|calls|] == calls;
  }

  // The same events, staged headers and status line.
  ghost predicate SameOutput(base: Header, a: seq<Op>, b: seq<Op>) {
    (Started(a) <==> Started(b)) && Staged(a) == Staged(b) && Output(base, a) == Output(base, b)
  }

  lemma SameOutputGrows(base: Header, a: seq<Op>, b: seq<Op>, op: Op)
    requires SameOutput(base, a, b)
    ensures SameOutput(base, a + [op], b + [op])
  {
    OutputGrows(base, a, op);
    OutputGrows(base, b, op);
    EmittedGrows(a, op);
    EmittedGrows(b, op);
  }

  lemma ImpliedStages(a: seq<Op>, op: Op)
    requires Implies(op)
    ensures Staged(a + [SendStatus(OK)] + [op]) == Staged(a) == Staged(a + [op])
  {
    EmittedGrows(a, SendStatus(OK));
    EmittedGrows(a + [SendStatus(OK)], op);
    EmittedGrows(a, op);
  }

  lemma StartsWith(base: Header, a: seq<Op>, op: Op)
    requires !Started(a) && Implies(op)
    ensures Started(a + [op]) && Output(base, a + [op]) == [Status(OK, base + Staged(a))] + Emits(op)
  {
    OutputGrows(base, a, op);
  }

  lemma StartsImplied(base: Header, a: seq<Op>)
    requires !Started(a)
    ensures Started(a + [SendStatus(OK)]) && Output(base, a + [SendStatus(OK)]) == [Status(OK, base + Staged(a))]
  {
    OutputGrows(base, a, SendStatus(OK));
    assert Emits(SendStatus(OK)) == [];
  }

  lemma ImpliedOutput(base: Header, a: seq<Op>, op: Op)
    requires !Started(a) && Implies(op)
    ensures Started(a + [SendStatus(OK)] + [op]) && Started(a + [op])
    ensures Output(base, a + [SendStatus(OK)] + [op]) == [Status(OK, base + Staged(a))] + Emits(op) == Output(base, a + [op])
  {
    StartsImplied(base, a);
    OutputContinues(base, a + [SendStatus(OK)], op);
    StatusLineIsKept(base, a + [SendStatus(OK)], op);
    StartsWith(base, a, op);
  }

  lemma ImpliedStatus(base: Header, a: seq<Op>, b: seq<Op>, op: Op)
    requires SameOutput(base, a, b) && !Started(a) && Implies(op)
    ensures SameOutput(base, a + [SendStatus(OK)] + [op], b + [op])
  {
    ImpliedStages(a, op);
    ImpliedOutput(base, a, op);
    SameOutputGrows(base, a, b, op);
  }

  lemma {:induction false} SectionsHaveSameOutput(base: Header, calls: seq<Op>)
    ensures SameOutput(base, Sections(calls), calls)
  {
    if calls == [] {
    } else {
      var before, op := calls[..|calls| - 1], calls[|calls| - 1];
      SectionsHaveSameOutput(base, before);
      assert calls == before + [op];
      if Implies(op) && !Started(before) {
        assert Sections(calls) == Sections(before) + [SendStatus(OK)] + [op];
        ImpliedStatus(base, Sections(before), before, op);
      } else {
        SameOutputGrows(base, Sections(before), before, op);
      }
    }
  }

  lemma {:induction false} OutputExtends(base: Header, a: seq<Op>, b: seq<Op>)
    ensures Output(base, a) <= Output(base, a + b)
  {
    if b == [] {
      assert a + b == a;
    } else {
      var front, op := a + b[..|b| - 1], b[|b| - 1];
      assert a + b == front + [op];
      OutputExtends(base, a, b[..|b| - 1]);
      OutputGrows(base, front, op);
    }
  }

  function Half(s: State): seq<Op> {
    if s.half.Some? then [s.half.value] else []
  }

  // What was done is what was asked for, up to half of the last operation.
  ghost predicate Divided(s: State) {
    var done := s.seen + s.late;
    && Sections(s.calls) == done + Half(s)
    && (Metrics(s.chain).wroteHeader <==> Started(done))
    && (s.half.Some? ==> Started(done))
    && (s.watcher.Waiting? ==> s.late == [])
  }

  lemma SectionIsSeen(w: Chain, op: Op)
    ensures Metrics(HandlerStep(w, op)).wroteHeader <==> Metrics(w).wroteHeader || Commits(op)
  {
    if !Commits(op) {
      StagingIsLocal(w, op);
    }
  }

  lemma SectionAppends(s: State, op: Op)
    requires s.watcher.Waiting? ==> s.late == []
    ensures var done, s' := s.seen + s.late, Section(s, op);
            && s'.seen + s'.late == done + [op]
            && (Started(done + [op]) <==> Started(done) || Commits(op))
            && (s'.watcher.Waiting? ==> s'.late == [])
  {
    StartedGrows(s.seen + s.late, op);
    if s.watcher.Waiting? {
      assert s.seen + s.late == s.seen;
    } else {
      assert s.seen + (s.late + [op]) == (s.seen + s.late) + [op];
    }
  }

  lemma {:induction false} StartedSections(calls: seq<Op>)
    ensures Started(Sections(calls)) <==> Started(calls)
  {
    SectionsHaveSameOutput(map[], calls);
  }

  lemma HandleDivides(site: Site, s: State, op: Op)
    requires Divided(s)
    ensures Divided(Next(site, s, Handle(op)))
  {
    if Ready(s) {
      StartedSections(s.calls);
      SectionsGrow(s.calls, op);
      assert s.seen + s.late + [] == s.seen + s.late;
      if Implies(op) && !Metrics(s.chain).wroteHeader {
        var begun := s.(calls := s.calls + [op], half := Some(op));
        SectionIsSeen(s.chain, SendStatus(OK));
        SectionAppends(begun, SendStatus(OK));
        assert [SendStatus(OK), op] == [SendStatus(OK)] + [op];
      } else {
        SectionIsSeen(s.chain, op);
        SectionAppends(s.(calls := s.calls + [op]), op);
      }
    }
  }

  lemma ResumeDivides(site: Site, s: State)
    requires Divided(s)
    ensures Divided(Next(site, s, Resume))
  {
    if s.handler.Running? && s.half.Some? {
      SectionIsSeen(s.chain, s.half.value);
      SectionAppends(s.(half := None), s.half.value);
    }
  }

  lemma {:induction false} EveryRunDivides(site: Site, steps: seq<Step>)
    ensures Divided(Exec(site, steps))
  {
    if steps == [] {
      assert Divided(Init(site));
    } else {
      var before, step := Exec(site, steps[..|steps| - 1]), steps[|steps| - 1];
      EveryRunDivides(site, steps[..|steps| - 1]);
      match step
      case Handle(op) => HandleDivides(site, before, op);
      case Resume => ResumeDivides(site, before);
      case _ =>
    }
  }

  // A handler that is not running is not halfway through an operation.
  lemma {:induction false} HalfMeansRunning(site: Site, steps: seq<Step>)
    ensures Exec(site, steps).half.Some? ==> Exec(site, steps).handler.Running?
  {
    if steps == [] {
    } else {
      HalfMeansRunning(site, steps[..|steps| - 1]);
    }
  }

  // --- the theorems ---------------------------------------------------------

  // What the client is left with, by what the watcher decided.  The handler's
  // output is that of the operations it has begun.
  ghost predicate Verdict(site: Site, s: State) {
    var log, output := Wire(s.chain).log, Output(site.base, s.calls);
    match s.watcher
    // Racing: the handler's output so far, all of it unless it is halfway
    // through an operation.
    case Waiting => log <= output && s.late == [] && (s.half.None? ==> log == output)
    // In time: the handler's complete output, and its headers even if it wrote nothing.
    case Finished =>
      && s.handler.Returned? && s.late == [] && log == output
      && (output == [] ==> Wire(s.chain).header == site.base + Staged(s.calls))
    // Stopped after the status line was out, or the client is gone: what was out
    // by then, which is a prefix.
    case Left =>
      && log <= output && log == Output(site.base, s.seen)
      && s.seen <= Sections(s.calls) && (log != [] || s.context.Canceled?)
    // Past the deadline with nothing sent: the TIMEOUT problem alone.
    case Answering(sent) => s.context.Expired? && Output(site.base, s.seen) == [] && log == TimeoutLog(site, sent)
    // A panic in time: what the handler got out before it, and on top of that
    // the INTERNAL problem only if that is nothing.
    case Unwinding(v) => s.handler == Panicked(v) && s.late == [] && log == output
    case Aborted => s.handler == Panicked(Abort) && s.late == [] && log == output
    case Recovered =>
      s.handler == Panicked(Ordinary) && s.late == [] && log == if output == [] then InternalLog(site) else output
  }

  // How the output of what was done relates to that of what was asked for.
  lemma DoneIsOutput(site: Site, s: State)
    requires Divided(s)
    ensures s.seen <= Sections(s.calls) && Output(site.base, s.seen) <= Output(site.base, s.calls)
    ensures s.half.None? && s.late == [] ==>
              SameOutput(site.base, s.seen, s.calls)
  {
    SectionsHaveSameOutput(site.base, s.calls);
    OutputExtends(site.base, s.seen, s.late + Half(s));
    assert Sections(s.calls) == s.seen + (s.late + Half(s));
    if s.half.None? && s.late == [] {
      assert Sections(s.calls) == s.seen;
    }
  }

  /** In every interleaving the client gets the handler's output, a prefix of
      it, the TIMEOUT problem alone or the INTERNAL problem alone, never a
      mixture, and nothing the handler does late gets out. */
  lemma NeverMixed(site: Site, steps: seq<Step>)
    ensures Verdict(site, Exec(site, steps))
  {
    EveryPhase(site, steps);
    EveryRunDivides(site, steps);
    HalfMeansRunning(site, steps);
    DoneIsOutput(site, Exec(site, steps));
  }

  lemma ExecAppends(site: Site, steps: seq<Step>, step: Step)
    ensures Exec(site, steps + [step]) == Next(site, Exec(site, steps), step)
  {
    assert (steps + [step])[..|steps|] == steps;
  }

  // A write that the deadline cuts in two.
  function Begun(bytes: string): seq<Step> {
    [] + [Handle(SendBody(bytes))]
  }

  function CutInTwo(bytes: string): seq<Step> {
    Begun(bytes) + [DeadlinePasses] + [TakeContext] + [Resume]
  }

  lemma WriteBegins(site: Site, bytes: string)
    ensures var s := Exec(site, Begun(bytes));
            && Ready(s.(half := None)) && s.half == Some(SendBody(bytes)) && s.calls == [SendBody(bytes)]
            && s.watcher.Waiting? && s.context.Live? && s.seen == [SendStatus(OK)]
  {
    ExecAppends(site, [], Handle(SendBody(bytes)));
  }

  lemma OneOutput(base: Header, op: Op)
    requires Commits(op)
    ensures Output(base, [op]) == [Status(CodeOf(op), base)] + Emits(op)
  {
    OutputGrows(base, [], op);
    assert [] + [op] == [op] && base + map[] == base;
  }

  // The deadline takes a handler that is halfway through a write.
  lemma DeadlineCuts(site: Site, s: State)
    requires s.watcher.Waiting? && s.context.Live? && s.handler.Running? && s.half.Some? && TimeoutOf(s.chain).wroteHeader
    ensures var cut := Next(site, Next(site, Next(site, s, DeadlinePasses), TakeContext), Resume);
            cut.watcher.Left? && cut.half.None? && cut.seen == s.seen && cut.calls == s.calls
  {
    var late := Next(site, s, DeadlinePasses);
    assert late == s.(context := Expired);
    assert Next(site, late, TakeContext) == late.(watcher := Left, chain := Stop(s.chain));
  }

  lemma CutInTwoRuns(site: Site, bytes: string)
    ensures Exec(site, CutInTwo(bytes)) ==
            Next(site, Next(site, Next(site, Exec(site, Begun(bytes)), DeadlinePasses), TakeContext), Resume)
  {
    ExecAppends(site, Begun(bytes), DeadlinePasses);
    ExecAppends(site, Begun(bytes) + [DeadlinePasses], TakeContext);
    ExecAppends(site, Begun(bytes) + [DeadlinePasses] + [TakeContext], Resume);
  }

  lemma BegunIsCommitted(site: Site, bytes: string)
    ensures TimeoutOf(Exec(site, Begun(bytes)).chain).wroteHeader
  {
    WriteBegins(site, bytes);
    EveryPhase(site, Begun(bytes));
    assert Commits([SendStatus(OK)][0]);
  }

  /** A proper prefix does happen: here the status line of a write is out, and
      its body is not. */
  lemma WriteCanBeCut(site: Site, bytes: string)
    ensures var s := Exec(site, CutInTwo(bytes));
            && s.watcher.Left? && s.half.None?
            && Wire(s.chain).log == [Status(OK, site.base)]
            && Output(site.base, s.calls) == [Status(OK, site.base)] + [Body(bytes)]
  {
    WriteBegins(site, bytes);
    BegunIsCommitted(site, bytes);
    CutInTwoRuns(site, bytes);
    DeadlineCuts(site, Exec(site, Begun(bytes)));
    NeverMixed(site, CutInTwo(bytes));
    OneOutput(site.base, SendStatus(OK));
    OneOutput(site.base, SendBody(bytes));
  }

  /** At most one status line reaches the wire, it comes first, and no layer
      ever asks net/http for a second one. */
  lemma OneStatusLine(site: Site, steps: seq<Step>)
    ensures var wire := Wire(Exec(site, steps).chain);
            && wire.superfluous == 0
            && (wire.wroteHeader <==> wire.log != [])
            && (wire.log != [] ==> wire.log[0].Status?)
            && forall i :: 0 < i < |wire.log| ==> !wire.log[i].Status?
  {
    EveryPhase(site, steps);
  }

  // The branch of Recover that answers.
  predicate RecoverAnswered(s: State) {
    s.watcher.Recovered? && !Started(s.seen)
  }

  /** Recover's recorder always knows what the client got.  Logger's does
      exactly until Recover answers underneath it. */
  lemma RecordersAgree(site: Site, steps: seq<Step>)
    ensures var s := Exec(site, steps);
            && Shows(RecoverWriter(s.chain).rec, Wire(s.chain))
            && (Shows(Logger(s.chain), Wire(s.chain)) <==> !RecoverAnswered(s))
  {
    EveryPhase(site, steps);
  }

  // A handler that panics before it wrote anything.
  const PANICS: seq<Step> := [HandlerPanics(Ordinary), TakePanic, Recover]

  /** And Recover does answer underneath it: here the client gets a 500 and
      Logger's recorder shows a 200. */
  lemma LoggerCanDisagree(site: Site)
    ensures var s := Exec(site, PANICS);
            && RecoverAnswered(s) && Wire(s.chain).log == InternalLog(site)
            && Logger(s.chain).status == OK && !Shows(Logger(s.chain), Wire(s.chain))
  {
    var steps := PANICS;
    assert steps[..1][..0] == [] && steps[..2][..1] == steps[..1];
    var s1 := Next(site, Init(site), steps[0]);
    assert Exec(site, steps[..1]) == s1;
    var s2 := Next(site, s1, steps[1]);
    assert Exec(site, steps[..2]) == s2;
    EveryPhase(site, steps);
  }

  // The status the client sees: net/http supplies a 200 of its own to a
  // response nobody started.
  function ClientStatus(s: State): nat {
    StatusOf(Wire(s.chain))
  }

  /** The status Metrics observes when the handler returns is the client's,
      unless the watcher closed the writer before the handler committed one. */
  lemma ObservedStatus(site: Site, steps: seq<Step>)
    ensures var s := Exec(site, steps);
            Metrics(s.chain).status == ClientStatus(s) || s.handler.Panicked? ||
              (TimeoutOf(s.chain).closed && !Started(s.seen) && !s.watcher.Finished?)
    ensures var s := Exec(site, steps);
            Started(s.seen) ==> Metrics(s.chain).status == ClientStatus(s)
  {
    EveryPhase(site, steps);
  }

  // Only the handler writes through Metrics' recorder.
  lemma WatcherLeavesMetricsAlone(site: Site, s: State, step: Step)
    requires !s.handler.Running?
    ensures Metrics(Next(site, s, step).chain) == Metrics(s.chain)
    ensures Next(site, s, step).handler == s.handler
  {
  }

  // --- and something does get out ---------------------------------------------

  function Answers(steps: seq<Step>): nat {
    if steps == [] then 0
    else Answers(steps[..|steps| - 1]) + if steps[|steps| - 1].AnswerTimeout? then 1 else 0
  }

  // Where the watcher is after so many of the three calls.
  function AnsweredSo(sent: nat): Watcher {
    Answering(if sent < 3 then sent else 3)
  }

  lemma AnswerIsAStep(site: Site, s: State, step: Step, sent: nat)
    requires s.watcher == AnsweredSo(sent)
    ensures Next(site, s, step).watcher == AnsweredSo(if step.AnswerTimeout? then sent + 1 else sent)
  {
  }

  // Nothing but the watcher's own calls moves it on, and nothing stops them.
  lemma {:induction false} AnswersGoOn(site: Site, steps: seq<Step>, more: seq<Step>)
    requires Exec(site, steps).watcher == AnsweredSo(0)
    ensures Exec(site, steps + more).watcher == AnsweredSo(Answers(more))
  {
    if more == [] {
      assert steps + more == steps;
    } else {
      var front, step := more[..|more| - 1], more[|more| - 1];
      assert steps + more == (steps + front) + [step];
      AnswersGoOn(site, steps, front);
      ExecAppends(site, steps + front, step);
      AnswerIsAStep(site, Exec(site, steps + front), step, Answers(front));
    }
  }

  // Nothing of the handler's is out.
  predicate Unstarted(s: State) {
    !Started(s.seen)
  }

  lemma ContextIsTaken(site: Site, steps: seq<Step>)
    requires var s := Exec(site, steps); s.watcher.Waiting? && !s.context.Live?
    ensures var s, s' := Exec(site, steps), Exec(site, steps + [TakeContext]);
            && s'.watcher == (if s.context.Expired? && Unstarted(s) then AnsweredSo(0) else Left)
            && Wire(s'.chain).log == Wire(s.chain).log
  {
    EveryPhase(site, steps);
    ExecAppends(site, steps, TakeContext);
  }

  /** A deadline that passes before the handler started its response is
      answered: from every reachable state, after the watcher's three calls and
      whatever the handler does before, between and after them, the client has
      exactly the TIMEOUT problem. */
  lemma TimeoutIsAnswered(site: Site, steps: seq<Step>, more: seq<Step>)
    requires var s := Exec(site, steps); s.watcher.Waiting? && s.context.Expired? && Unstarted(s)
    requires Answers(more) >= 3
    ensures var s := Exec(site, steps + [TakeContext] + more);
            && s.watcher == Answering(3)
            && Wire(s.chain).log ==
               [Status(503, site.base + map["Content-Type" := ["application/problem+json"],
                                            "Content-Length" := [Numeral(|site.timeoutBody|)]])]
               + [Body(site.timeoutBody)]
  {
    ContextIsTaken(site, steps);
    AnswersGoOn(site, steps + [TakeContext], more);
    NeverMixed(site, steps + [TakeContext] + more);
  }

  /** A handler that returns in time and is taken gets everything out: its
      complete output, and its headers if that is nothing. */
  lemma ReturnIsAnswered(site: Site, steps: seq<Step>)
    requires var s := Exec(site, steps); s.watcher.Waiting? && s.handler.Returned?
    ensures var s, s' := Exec(site, steps), Exec(site, steps + [TakeDone]);
            && s'.watcher.Finished? && TimeoutOf(s'.chain).closed
            && s'.calls == s.calls && Wire(s'.chain).log == Output(site.base, s.calls)
            && (Wire(s'.chain).log == [] ==> Wire(s'.chain).header == site.base + Staged(s.calls))
  {
    ExecAppends(site, steps, TakeDone);
    NeverMixed(site, steps + [TakeDone]);
    EveryPhase(site, steps + [TakeDone]);
  }

  // The INTERNAL problem, with nothing in front of it.
  function InternalProblem(site: Site): seq<Event> {
    [Status(500, site.base + map["Content-Type" := ["application/problem+json"],
                                 "Content-Length" := [Numeral(|site.internalBody|)]])]
    + [Body(site.internalBody)]
  }

  /** A panic that is taken reaches Recover: http.ErrAbortHandler goes on to
      net/http, any other is answered with INTERNAL unless there is output. */
  lemma PanicIsAnswered(site: Site, steps: seq<Step>, v: Panic)
    requires var s := Exec(site, steps); s.watcher.Waiting? && s.handler == Panicked(v)
    ensures var s, s' := Exec(site, steps), Exec(site, steps + [TakePanic] + [Recover]);
            var output, log := Output(site.base, s.calls), Wire(s'.chain).log;
            && s'.calls == s.calls
            && (v.Abort? ==> s'.watcher.Aborted? && log == output)
            && (v.Ordinary? ==> s'.watcher.Recovered? && log == if output != [] then output else InternalProblem(site))
  {
    ExecAppends(site, steps, TakePanic);
    ExecAppends(site, steps + [TakePanic], Recover);
    NeverMixed(site, steps + [TakePanic] + [Recover]);
    assert InternalLog(site) == [Status(500, site.base + ProblemHeader(site.internalBody))] + [Body(site.internalBody)];
  }

  /** A client that leaves is not answered. */
  lemma LeavingIsNoticed(site: Site, steps: seq<Step>)
    requires var s := Exec(site, steps); s.watcher.Waiting? && s.context.Live?
    ensures var s, s' := Exec(site, steps), Exec(site, steps + [ClientLeaves] + [TakeContext]);
            s'.watcher.Left? && Wire(s'.chain).log == Wire(s.chain).log
  {
    ExecAppends(site, steps, ClientLeaves);
    ContextIsTaken(site, steps + [ClientLeaves]);
  }

  predicate Final(w: Watcher) {
    w.Finished? || w.Left? || w.Recovered? || w.Aborted? || w == Answering(3)
  }

  // What the handler does, or what is done to it, is not needed.
  predicate HandlerMoves(step: Step) {
    step.Handle? || step.Resume? || step.HandlerReturns? || step.HandlerPanics?
  }

  lemma ExecThree(site: Site, steps: seq<Step>, a: Step, b: Step, c: Step)
    ensures Exec(site, steps + [a] + [b] + [c]) == Next(site, Next(site, Next(site, Exec(site, steps), a), b), c)
  {
    ExecAppends(site, steps, a);
    ExecAppends(site, steps + [a], b);
    ExecAppends(site, steps + [a] + [b], c);
  }

  lemma DecidedSoon(site: Site, s: State)
    requires s.watcher.Answering? ==> s.watcher.sent <= 3
    ensures var s' := Next(site, Next(site, Next(site, s, DeadlinePasses), TakeContext), Recover);
            Final(s'.watcher) || (s'.watcher.Answering? && s'.watcher.sent <= 3)
  {
    var s' := Next(site, Next(site, s, DeadlinePasses), TakeContext);
    assert !s'.watcher.Waiting?;
  }

  lemma AnsweredSoon(site: Site, s: State)
    requires Final(s.watcher) || (s.watcher.Answering? && s.watcher.sent <= 3)
    ensures Final(Next(site, Next(site, Next(site, s, AnswerTimeout), AnswerTimeout), AnswerTimeout).watcher)
  {
  }

  const ENOUGH: seq<Step> := [DeadlinePasses, TakeContext, Recover, AnswerTimeout, AnswerTimeout, AnswerTimeout]

  lemma EnoughRuns(site: Site, steps: seq<Step>)
    requires var s := Exec(site, steps); s.watcher.Answering? ==> s.watcher.sent <= 3
    ensures Final(Exec(site, steps + ENOUGH).watcher)
  {
    var decided := steps + [DeadlinePasses] + [TakeContext] + [Recover];
    ExecThree(site, steps, DeadlinePasses, TakeContext, Recover);
    DecidedSoon(site, Exec(site, steps));
    ExecThree(site, decided, AnswerTimeout, AnswerTimeout, AnswerTimeout);
    AnsweredSoon(site, Exec(site, decided));
    assert steps + ENOUGH == decided + [AnswerTimeout] + [AnswerTimeout] + [AnswerTimeout];
  }

  /** Every run can be brought to a final verdict without the handler: the
      deadline and the goroutines outside it are enough. */
  lemma EveryRunEnds(site: Site, steps: seq<Step>)
    ensures Final(Exec(site, steps + ENOUGH).watcher)
    ensures forall i :: 0 <= i < |ENOUGH| ==> !HandlerMoves(ENOUGH[i])
  {
    EveryPhase(site, steps);
    EnoughRuns(site, steps);
  }

  // --- a handler that is left alone ---------------------------------------------

  function Undisturbed(ops: seq<Op>): seq<Step> {
    if ops == [] then [] else Undisturbed(ops[..|ops| - 1]) + [Handle(ops[|ops| - 1])] + [Resume]
  }

  predicate InTime(s: State, ops: seq<Op>) {
    Ready(s) && s.watcher.Waiting? && s.context.Live? && s.calls == ops
  }

  lemma CallIsTaken(site: Site, s: State, ops: seq<Op>, op: Op)
    requires InTime(s, ops)
    ensures InTime(Next(site, Next(site, s, Handle(op)), Resume), ops + [op])
  {
  }

  lemma {:induction false} UndisturbedRuns(site: Site, ops: seq<Op>)
    ensures InTime(Exec(site, Undisturbed(ops)), ops)
  {
    if ops == [] {
    } else {
      var front, op := ops[..|ops| - 1], ops[|ops| - 1];
      UndisturbedRuns(site, front);
      ExecAppends(site, Undisturbed(front), Handle(op));
      ExecAppends(site, Undisturbed(front) + [Handle(op)], Resume);
      CallIsTaken(site, Exec(site, Undisturbed(front)), front, op);
      assert ops == front + [op];
    }
  }

  /** Whatever a handler does, if it is left alone and returns the client gets
      exactly the output of its operations. */
  lemma InTimeGetsEverything(site: Site, ops: seq<Op>)
    ensures var s := Exec(site, Undisturbed(ops) + [HandlerReturns] + [TakeDone]);
            s.watcher.Finished? && s.calls == ops && Wire(s.chain).log == Output(site.base, ops)
  {
    UndisturbedRuns(site, ops);
    ExecAppends(site, Undisturbed(ops), HandlerReturns);
    ReturnIsAnswered(site, Undisturbed(ops) + [HandlerReturns]);
  }

  /** Or panics. */
  lemma PanicIsHeard(site: Site, ops: seq<Op>, v: Panic)
    ensures var s := Exec(site, Undisturbed(ops) + [HandlerPanics(v)]);
            s.watcher.Waiting? && s.handler == Panicked(v) && s.calls == ops
  {
    UndisturbedRuns(site, ops);
    ExecAppends(site, Undisturbed(ops), HandlerPanics(v));
  }
}
