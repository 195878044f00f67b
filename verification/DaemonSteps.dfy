/** internal/daemon/daemon.go as a step system: one connection's four goroutines in an
    errgroup, handler goroutines outside it, and a send queue that outlives the
    connection. Any interleaving is a sequence of events. */
module DaemonSteps {
  import opened Text

  const CAPACITY := 64

  // ---------- messages ----------

  /** A JSON-RPC 2.0 response carries either a result or an error (section 5). */
  datatype Reply = Result(json: string) | Error(code: int, message: string)

  /** `req` says which request a response answers; it is not sent. */
  datatype Message = Response(req: nat, id: string, reply: Reply) | Heartbeat

  datatype Request = Request(id: string, name: string)

  /** What the reader takes from the connection: the frame's method and id. */
  datatype Frame = Invalid | Frame(name: string, id: Option<string>)

  /** What becomes of running a handler. */
  datatype Handling = NoHandler | HandlerFails(message: string) | NotMarshalled | HandlerReturns(json: string)

  function ReplyTo(name: string, h: Handling): Reply {
    match h
    case NoHandler => Error(-32601, "method not found: " + name)
    case HandlerFails(message) => Error(-32000, message)
    case NotMarshalled => Error(-32603, "failed to marshal result")
    case HandlerReturns(json) => Result(json)
  }

  // ---------- state ----------

  datatype Exit = Nil | Err

  datatype Reader = Top | Reading | ReaderDone(exit: Exit)
  datatype Writer = Idle | Writing(msg: Message) | WriterDone(exit: Exit)
  datatype Beat = Ticking | BeatDone(exit: Exit)
  datatype Closer = Waiting | CloserDone(exit: Exit)

  /** The errgroup of one connection; `failed` once a member has returned an error. */
  datatype Group = Group(reader: Reader, writer: Writer, beat: Beat, closer: Closer, failed: bool, open: bool)

  /** The fate of a message taken from the queue. */
  datatype Fate = Fate(msg: Message, written: bool)

  /** `requests`, `running`, `notes`, `dropped`, `enqueued`, `fates` and `results` are what
      has happened so far; `group` is None between connections. */
  datatype State = State(
    group: Option<Group>, shutdown: bool, queue: seq<Message>,
    requests: seq<Request>, running: set<nat>, notes: nat, dropped: set<nat>,
    enqueued: seq<Message>, fates: seq<Fate>, results: seq<Exit>)

  function Start(): State { State(None, false, [], [], {}, 0, {}, [], [], []) }

  /** gctx.Done(): a member failed or the daemon is shut down. */
  predicate Cancelled(s: State)
    requires s.group.Some?
  {
    s.group.value.failed || s.shutdown
  }

  function WithGroup(s: State, g: Group): State { s.(group := Some(g)) }

  // ---------- events ----------

  datatype Event =
    | Connect | ConnectFails | Shutdown
    | ReadNext | ReadCancelled | ReadFrame(frame: Frame) | ReadPeerClosed | ReadFails
    | Finish(req: nat, handling: Handling) | FinishNote
    | Take | WriteOk | WriteFails | WriteCancelled
    | Tick | BeatCancelled
    | Close(exit: Exit) | WaitReturns

  predicate Enabled(s: State, e: Event) {
    match e
    case Connect => s.group.None? && !s.shutdown
    case ConnectFails => s.group.None? && !s.shutdown
    case Shutdown => !s.shutdown
    case Finish(req, _) => req in s.running && req < |s.requests|
    case FinishNote => s.notes > 0
    case _ => s.group.Some? && MemberEnabled(s, s.group.value, e)
  }

  predicate MemberEnabled(s: State, g: Group, e: Event)
    requires s.group == Some(g)
  {
    match e
    case ReadNext => g.reader.Top? && !Cancelled(s)
    case ReadCancelled => g.reader.Top? && Cancelled(s)
    case ReadFrame(_) => g.reader.Reading?
    case ReadPeerClosed => g.reader.Reading?
    case ReadFails => g.reader.Reading?
    case Take => g.writer.Idle? && s.queue != []
    case WriteOk => g.writer.Writing? && g.open
    case WriteFails => g.writer.Writing?
    case WriteCancelled => g.writer.Idle? && Cancelled(s)
    case Tick => g.beat.Ticking?
    case BeatCancelled => g.beat.Ticking? && Cancelled(s)
    case Close(_) => g.closer.Waiting? && Cancelled(s)
    case WaitReturns => AllDone(g)
    case _ => false
  }

  predicate AllDone(g: Group) {
    g.reader.ReaderDone? && g.writer.WriterDone? && g.beat.BeatDone? && g.closer.CloserDone?
  }

  /** The non-blocking send of sendResponse and of the heartbeat: a full queue drops. */
  function Offer(s: State, m: Message): State {
    if |s.queue| < CAPACITY then s.(queue := s.queue + [m], enqueued := s.enqueued + [m])
    else if m.Response? then s.(dropped := s.dropped + {m.req})
    else s
  }

  /** The dispatch of readLoop. Nothing is ever pending, so a response is ignored. */
  function Dispatch(s: State, f: Frame): State {
    if f.Invalid? || f.name == "" then s
    else if f.id.Some? then
      s.(requests := s.requests + [Request(f.id.value, f.name)], running := s.running + {|s.requests|})
    else s.(notes := s.notes + 1)
  }

  function Apply(s: State, e: Event): State
    requires Enabled(s, e)
  {
    match e
    case Connect => WithGroup(s, Group(Top, Idle, Ticking, Waiting, false, true))
    case ConnectFails => s.(results := s.results + [Err])
    case Shutdown => s.(shutdown := true)
    case Finish(req, h) =>
      var r := s.requests[req];
      Offer(s.(running := s.running - {req}), Response(req, r.id, ReplyTo(r.name, h)))
    case FinishNote => s.(notes := s.notes - 1)
    case _ => ApplyMember(s, s.group.value, e)
  }

  function ApplyMember(s: State, g: Group, e: Event): State
    requires s.group == Some(g) && MemberEnabled(s, g, e)
  {
    match e
    case ReadNext => WithGroup(s, g.(reader := Reading))
    case ReadCancelled => WithGroup(s, g.(reader := ReaderDone(Err), failed := true))
    case ReadFrame(f) => Dispatch(WithGroup(s, g.(reader := Top)), f)
    case ReadPeerClosed => WithGroup(s, g.(reader := ReaderDone(Nil)))
    case ReadFails => WithGroup(s, g.(reader := ReaderDone(Err), failed := true))
    case Take => WithGroup(s, g.(writer := Writing(s.queue[0]))).(queue := s.queue[1..])
    case WriteOk => WithGroup(s, g.(writer := Idle)).(fates := s.fates + [Fate(g.writer.msg, true)])
    case WriteFails =>
      WithGroup(s, g.(writer := WriterDone(Err), failed := true)).(fates := s.fates + [Fate(g.writer.msg, false)])
    case WriteCancelled => WithGroup(s, g.(writer := WriterDone(Err), failed := true))
    case Tick => Offer(s, Heartbeat)
    case BeatCancelled => WithGroup(s, g.(beat := BeatDone(Err), failed := true))
    case Close(exit) => WithGroup(s, g.(closer := CloserDone(exit), open := false, failed := g.failed || exit == Err))
    case WaitReturns => s.(group := None, results := s.results + [if g.failed then Err else Nil])
  }

  // ---------- runs ----------

  predicate IsRun(s: State, events: seq<Event>)
    decreases |events|
  {
    events == [] || (Enabled(s, events[0]) && IsRun(Apply(s, events[0]), events[1..]))
  }

  function After(s: State, events: seq<Event>): State
    requires IsRun(s, events)
    decreases |events|
  {
    if events == [] then s else After(Apply(s, events[0]), events[1..])
  }

  // ---------- what every run keeps ----------

  function Messages(fates: seq<Fate>): seq<Message> {
    if fates == [] then [] else Messages(fates[..|fates| - 1]) + [fates[|fates| - 1].msg]
  }

  function InFlight(s: State): seq<Message> {
    if s.group.Some? && s.group.value.writer.Writing? then [s.group.value.writer.msg] else []
  }

  /** First in, first out, and nothing appears or vanishes: what was put in is what came
      out, then what is being written, then what is still queued. */
  predicate Conserved(s: State) {
    |s.queue| <= CAPACITY && s.enqueued == Messages(s.fates) + (InFlight(s) + s.queue)
  }

  /** How many responses to a request were enqueued. */
  function Answers(ms: seq<Message>, req: nat): nat {
    if ms == [] then 0
    else
      var m := ms[|ms| - 1];
      Answers(ms[..|ms| - 1], req) + if m.Response? && m.req == req then 1 else 0
  }

  function One(b: bool): nat { if b then 1 else 0 }

  /** Each accepted request is in exactly one place: still running, dropped, or answered
      once in the queue's history. Nothing else is. */
  ghost predicate Accounted(s: State) {
    forall req: nat ::
      One(req in s.running) + One(req in s.dropped) + Answers(s.enqueued, req) == One(req < |s.requests|)
  }

  /** Every response answers an accepted request, with its id. */
  predicate Answering(s: State, m: Message) {
    m.Response? ==> m.req < |s.requests| && m.id == s.requests[m.req].id
  }

  predicate AllAnswering(s: State) { forall i | 0 <= i < |s.enqueued| :: Answering(s, s.enqueued[i]) }

  /** Who can have ended how, and why. */
  predicate GroupOk(g: Group, shutdown: bool) {
    && (g.failed <==> g.reader == ReaderDone(Err) || g.writer.WriterDone? || g.beat.BeatDone? || g.closer == CloserDone(Err))
    && (g.writer.WriterDone? ==> g.writer.exit == Err)
    && (g.beat.BeatDone? ==> g.beat.exit == Err)
    && (g.closer.CloserDone? <==> !g.open)
    && (g.closer.CloserDone? || g.beat.BeatDone? ==> g.failed || shutdown)
    && (g.failed && !shutdown ==> g.reader == ReaderDone(Err) || g.writer.WriterDone?)
  }

  /** No run of the connection has ended without an error. */
  predicate AllFailed(results: seq<Exit>) { forall i | 0 <= i < |results| :: results[i] == Err }

  ghost predicate Inv(s: State) {
    && Conserved(s) && Accounted(s) && AllAnswering(s)
    && (s.group.Some? ==> GroupOk(s.group.value, s.shutdown))
    && AllFailed(s.results)
  }

  lemma {:induction false} MessagesSnoc(fates: seq<Fate>, f: Fate)
    ensures Messages(fates + [f]) == Messages(fates) + [f.msg]
  {
    assert (fates + [f])[..|fates|] == fates;
  }

  lemma {:induction false} AnswersSnoc(ms: seq<Message>, m: Message, req: nat)
    ensures Answers(ms + [m], req) == Answers(ms, req) + if m.Response? && m.req == req then 1 else 0
  {
    assert (ms + [m])[..|ms|] == ms;
  }

  lemma {:induction false} OfferConserves(s: State, m: Message)
    requires Conserved(s)
    ensures Conserved(Offer(s, m)) && Offer(s, m).group == s.group && Offer(s, m).results == s.results
    ensures Offer(s, m).shutdown == s.shutdown
  {
    if |s.queue| < CAPACITY {
      assert Messages(s.fates) + (InFlight(s) + s.queue) + [m] == Messages(s.fates) + (InFlight(s) + (s.queue + [m]));
    }
  }

  /** A handler's response is enqueued or dropped, never both, never neither. */
  lemma {:induction false} OfferResponse(s: State, req: nat, reply: Reply)
    requires Accounted(s) && AllAnswering(s) && req in s.running && req < |s.requests|
    ensures var s1 := Offer(s.(running := s.running - {req}), Response(req, s.requests[req].id, reply));
            Accounted(s1) && AllAnswering(s1)
  {
    var m := Response(req, s.requests[req].id, reply);
    var s0 := s.(running := s.running - {req});
    var s1 := Offer(s0, m);
    forall r: nat
      ensures One(r in s1.running) + One(r in s1.dropped) + Answers(s1.enqueued, r) == One(r < |s1.requests|)
    {
      assert One(r in s.running) + One(r in s.dropped) + Answers(s.enqueued, r) == One(r < |s.requests|);
      AnswersSnoc(s.enqueued, m, r);
    }
    OfferAnswering(s0, m);
  }

  lemma OfferAnswering(s: State, m: Message)
    requires AllAnswering(s) && Answering(s, m)
    ensures AllAnswering(Offer(s, m))
  {
    forall i | 0 <= i < |s.enqueued| ensures Answering(Offer(s, m), s.enqueued[i]) { assert Answering(s, s.enqueued[i]); }
  }

  lemma {:induction false} OfferHeartbeat(s: State)
    requires Accounted(s) && AllAnswering(s)
    ensures Accounted(Offer(s, Heartbeat)) && AllAnswering(Offer(s, Heartbeat))
  {
    var s1 := Offer(s, Heartbeat);
    forall r: nat
      ensures One(r in s1.running) + One(r in s1.dropped) + Answers(s1.enqueued, r) == One(r < |s1.requests|)
    {
      assert One(r in s.running) + One(r in s.dropped) + Answers(s.enqueued, r) == One(r < |s.requests|);
      AnswersSnoc(s.enqueued, Heartbeat, r);
    }
  }

  lemma {:induction false} DispatchInv(s: State, f: Frame)
    requires Conserved(s) && Accounted(s) && AllAnswering(s)
    ensures var s1 := Dispatch(s, f); Conserved(s1) && Accounted(s1) && AllAnswering(s1)
  {
    var s1 := Dispatch(s, f);
    forall r: nat
      ensures One(r in s1.running) + One(r in s1.dropped) + Answers(s1.enqueued, r) == One(r < |s1.requests|)
    {
      assert One(r in s.running) + One(r in s.dropped) + Answers(s.enqueued, r) == One(r < |s.requests|);
    }
    forall i | 0 <= i < |s1.enqueued|
      ensures Answering(s1, s1.enqueued[i])
    {
      assert Answering(s, s.enqueued[i]);
    }
  }

  predicate IsReaderEvent(e: Event) {
    e.ReadNext? || e.ReadCancelled? || e.ReadFrame? || e.ReadPeerClosed? || e.ReadFails?
  }

  lemma {:induction false} ReaderInv(s: State, e: Event)
    requires Inv(s) && Enabled(s, e) && IsReaderEvent(e)
    ensures Inv(Apply(s, e))
  {
    var g := s.group.value;
    if e.ReadFrame? {
      SameBooks(s, WithGroup(s, g.(reader := Top)));
      DispatchInv(WithGroup(s, g.(reader := Top)), e.frame);
    } else {
      ReaderMoves(s, e);
      SameBooks(s, Apply(s, e));
    }
  }

  lemma {:induction false} ReaderMoves(s: State, e: Event)
    requires Conserved(s) && Enabled(s, e) && IsReaderEvent(e) && !e.ReadFrame? && GroupOk(s.group.value, s.shutdown)
    ensures Conserved(Apply(s, e)) && GroupOk(Apply(s, e).group.value, s.shutdown)
  {
    assert InFlight(Apply(s, e)) == InFlight(s);
  }

  lemma {:induction false} SameBooks(s: State, s1: State)
    requires Accounted(s) && AllAnswering(s)
    requires s1.requests == s.requests && s1.running == s.running && s1.dropped == s.dropped && s1.enqueued == s.enqueued
    ensures Accounted(s1) && AllAnswering(s1)
  {
    forall r: nat
      ensures One(r in s1.running) + One(r in s1.dropped) + Answers(s1.enqueued, r) == One(r < |s1.requests|)
    {
      assert One(r in s.running) + One(r in s.dropped) + Answers(s.enqueued, r) == One(r < |s.requests|);
    }
    forall i | 0 <= i < |s1.enqueued|
      ensures Answering(s1, s1.enqueued[i])
    {
      assert Answering(s, s.enqueued[i]);
    }
  }

  lemma {:induction false} TakeInv(s: State)
    requires Inv(s) && Enabled(s, Take)
    ensures Inv(Apply(s, Take))
  {
    var s1 := Apply(s, Take);
    SameBooks(s, s1);
    assert s.queue == [s.queue[0]] + s.queue[1..];
    assert InFlight(s) + s.queue == InFlight(s1) + s1.queue;
  }

  lemma {:induction false} WrittenInv(s: State, e: Event)
    requires Inv(s) && Enabled(s, e) && (e.WriteOk? || e.WriteFails?)
    ensures Inv(Apply(s, e))
  {
    var s1 := Apply(s, e);
    SameBooks(s, s1);
    WrittenConserved(s, e);
  }

  lemma Shift(before: seq<Message>, m: Message, queue: seq<Message>)
    ensures before + ([m] + queue) == (before + [m]) + ([] + queue)
  {}

  lemma {:induction false} WrittenConserved(s: State, e: Event)
    requires Conserved(s) && Enabled(s, e) && (e.WriteOk? || e.WriteFails?)
    ensures Conserved(Apply(s, e))
  {
    var g, s1 := s.group.value, Apply(s, e);
    var f := Fate(g.writer.msg, e.WriteOk?);
    assert InFlight(s1) == [] && s1.queue == s.queue;
    MessagesSnoc(s.fates, f);
    Shift(Messages(s.fates), f.msg, s.queue);
  }

  /** Every event keeps the invariant. */
  lemma {:induction false} InvStep(s: State, e: Event)
    requires Inv(s) && Enabled(s, e)
    ensures Inv(Apply(s, e))
  {
    if IsReaderEvent(e) {
      ReaderInv(s, e);
    } else if e.Take? {
      TakeInv(s);
    } else if e.WriteOk? || e.WriteFails? {
      WrittenInv(s, e);
    } else if e.Finish? {
      OfferResponse(s, e.req, ReplyTo(s.requests[e.req].name, e.handling));
      OfferConserves(s.(running := s.running - {e.req}),
                     Response(e.req, s.requests[e.req].id, ReplyTo(s.requests[e.req].name, e.handling)));
    } else if e.Tick? {
      OfferHeartbeat(s);
      OfferConserves(s, Heartbeat);
    }
  }

  lemma InvStart()
    ensures Inv(Start())
  {}

  /** Whatever the interleaving, the failures and the reconnects. */
  lemma {:induction false} InvRun(s: State, events: seq<Event>)
    requires Inv(s) && IsRun(s, events)
    ensures Inv(After(s, events))
    decreases |events|
  {
    if events == [] {
    } else {
      InvStep(s, events[0]);
      InvRun(Apply(s, events[0]), events[1..]);
    }
  }

  // ---------- consequences ----------

  lemma {:induction false} AnswersCount(ms: seq<Message>, req: nat, i: nat)
    requires i < |ms| && ms[i].Response? && ms[i].req == req
    ensures Answers(ms, req) >= 1
    ensures forall j | 0 <= j < i && ms[j].Response? && ms[j].req == req :: Answers(ms, req) >= 2
  {
    var n := |ms| - 1;
    if i < n {
      AnswersCount(ms[..n], req, i);
      assert forall j | 0 <= j < i :: ms[..n][j] == ms[j];
    } else {
      forall j | 0 <= j < i && ms[j].Response? && ms[j].req == req
        ensures Answers(ms, req) >= 2
      {
        AnswersCount(ms[..n], req, j);
      }
    }
  }

  /** In every reachable state no request is answered twice, and none that is answered
      is also running or dropped. */
  lemma {:induction false} AnsweredOnce(events: seq<Event>, i: nat, j: nat)
    requires IsRun(Start(), events)
    requires var s := After(Start(), events);
             j <= i < |s.enqueued| && s.enqueued[i].Response? && s.enqueued[j].Response? &&
             s.enqueued[i].req == s.enqueued[j].req
    ensures var s := After(Start(), events);
            var req := s.enqueued[i].req;
            i == j && req !in s.running && req !in s.dropped && req < |s.requests| &&
            s.enqueued[i].id == s.requests[req].id
  {
    InvStart();
    InvRun(Start(), events);
    var s := After(Start(), events);
    var req := s.enqueued[i].req;
    AnswersCount(s.enqueued, req, i);
    assert Answering(s, s.enqueued[i]);
    assert One(req in s.running) + One(req in s.dropped) + Answers(s.enqueued, req) == One(req < |s.requests|);
  }

  /** The response carries what became of its handler: a result, and that one, if the handler
      returned it, and otherwise the error of the case. */
  predicate Reports(m: Message, e: Event) {
    && m.Response? && e.Finish? && e.req == m.req
    && (m.reply.Result? <==> e.handling.HandlerReturns?)
    && (m.reply.Result? ==> m.reply.json == e.handling.json)
    && (e.handling.NoHandler? ==> m.reply.code == -32601)
    && (e.handling.HandlerFails? ==> m.reply.code == -32000 && m.reply.message == e.handling.message)
    && (e.handling.NotMarshalled? ==> m.reply.code == -32603)
  }

  lemma EnqueuedStep(s: State, e: Event)
    requires Enabled(s, e)
    ensures var added := Apply(s, e).enqueued;
            && |s.enqueued| <= |added| <= |s.enqueued| + 1 && added[..|s.enqueued|] == s.enqueued
            && (|s.enqueued| < |added| && added[|s.enqueued|].Response? ==> Reports(added[|s.enqueued|], e))
  {}

  lemma {:induction false} EnqueuedAfter(s: State, events: seq<Event>)
    requires IsRun(s, events)
    ensures s.enqueued <= After(s, events).enqueued
    decreases |events|
  {
    if events == [] {
    } else {
      EnqueuedStep(s, events[0]);
      EnqueuedAfter(Apply(s, events[0]), events[1..]);
    }
  }

  /** Over any run, a response that was enqueued reports how the handler of its request ended. */
  lemma {:induction false} RepliesReport(s: State, events: seq<Event>, i: nat) returns (k: nat)
    requires IsRun(s, events)
    requires |s.enqueued| <= i < |After(s, events).enqueued| && After(s, events).enqueued[i].Response?
    ensures k < |events| && Reports(After(s, events).enqueued[i], events[k])
    decreases |events|
  {
    EnqueuedStep(s, events[0]);
    var s1 := Apply(s, events[0]);
    EnqueuedAfter(s1, events[1..]);
    if i < |s1.enqueued| {
      k := 0;
    } else {
      k := RepliesReport(s1, events[1..], i);
      k := k + 1;
    }
  }

  function Written(fates: seq<Fate>, written: bool): seq<Message> {
    if fates == [] then []
    else
      var last := fates[|fates| - 1];
      Written(fates[..|fates| - 1], written) + if last.written == written then [last.msg] else []
  }

  lemma {:induction false} AnswersAppend(a: seq<Message>, b: seq<Message>, req: nat)
    ensures Answers(a + b, req) == Answers(a, req) + Answers(b, req)
  {
    if b == [] {
      assert a + b == a;
    } else {
      AnswersAppend(a, b[..|b| - 1], req);
      assert (a + b)[..|a + b| - 1] == a + b[..|b| - 1];
    }
  }

  lemma {:induction false} LastWritten(fates: seq<Fate>, written: bool, req: nat)
    requires fates != []
    ensures var front, last := Written(fates[..|fates| - 1], written), fates[|fates| - 1];
            Answers(Written(fates, written), req) ==
            if last.written == written then Answers(front + [last.msg], req) else Answers(front, req)
  {
    var front := Written(fates[..|fates| - 1], written);
    assert front + [] == front;
  }

  lemma {:induction false} AnswersByFate(fates: seq<Fate>, req: nat)
    ensures Answers(Messages(fates), req) == Answers(Written(fates, true), req) + Answers(Written(fates, false), req)
  {
    if fates == [] {
    } else {
      var front, last := fates[..|fates| - 1], fates[|fates| - 1];
      AnswersByFate(front, req);
      AnswersSnoc(Messages(front), last.msg, req);
      LastWritten(fates, true, req);
      LastWritten(fates, false, req);
      AnswersSnoc(Written(front, last.written), last.msg, req);
    }
  }

  /** In every reachable state an accepted request is in exactly one place: its handler is
      running, or its response was dropped, is queued, is being written, was written, or was
      lost in a failed write. Nothing else is in any of them. */
  lemma {:induction false} Whereabouts(events: seq<Event>, req: nat)
    requires IsRun(Start(), events)
    ensures var s := After(Start(), events);
            One(req in s.running) + One(req in s.dropped) + Answers(s.queue, req) + Answers(InFlight(s), req) +
            Answers(Written(s.fates, true), req) + Answers(Written(s.fates, false), req) == One(req < |s.requests|)
  {
    InvStart();
    InvRun(Start(), events);
    var s := After(Start(), events);
    AnswersByFate(s.fates, req);
    AnswersAppend(Messages(s.fates), InFlight(s) + s.queue, req);
    AnswersAppend(InFlight(s), s.queue, req);
    assert One(req in s.running) + One(req in s.dropped) + Answers(s.enqueued, req) == One(req < |s.requests|);
  }

  /** When Wait returns, all four goroutines have ended, the connection is closed, and
      the result is an error: also when the reader ended without one. */
  lemma {:induction false} WaitReturnsError(events: seq<Event>)
    requires IsRun(Start(), events) && Enabled(After(Start(), events), WaitReturns)
    ensures var s := After(Start(), events);
            && AllDone(s.group.value) && !s.group.value.open
            && Apply(s, WaitReturns).results == s.results + [Err]
  {
    InvStart();
    InvRun(Start(), events);
  }

  /** So every result Run sees is an error, over any number of connections. */
  lemma {:induction false} EveryResultIsAnError(events: seq<Event>)
    requires IsRun(Start(), events)
    ensures AllFailed(After(Start(), events).results)
  {
    InvStart();
    InvRun(Start(), events);
  }

  /** In every reachable state a connection is cancelled exactly when the daemon is shut
      down, the reader ended with an error, or the writer ended. */
  lemma {:induction false} CancelledWhen(events: seq<Event>)
    requires IsRun(Start(), events) && After(Start(), events).group.Some?
    ensures var s := After(Start(), events);
            Cancelled(s) <==> s.shutdown || s.group.value.reader == ReaderDone(Err) || s.group.value.writer.WriterDone?
  {
    InvStart();
    InvRun(Start(), events);
  }

  /** After the peer closes cleanly the reader is gone, but only a failed write or a
      shutdown cancels the group. */
  lemma {:induction false} CleanCloseWaitsForAWrite(events: seq<Event>)
    requires IsRun(Start(), events) && After(Start(), events).group.Some?
    requires After(Start(), events).group.value.reader == ReaderDone(Nil)
    ensures var s := After(Start(), events);
            Cancelled(s) <==> s.shutdown || s.group.value.writer.WriterDone?
  {
    CancelledWhen(events);
  }

  function CleanClose(): seq<Event> { [Connect, ReadNext, ReadPeerClosed] }

  /** Such states are reached: one goroutine has ended, and the connection is still open. */
  lemma {:induction false} CleanCloseLeavesItOpen()
    ensures IsRun(Start(), CleanClose())
    ensures var s := After(Start(), CleanClose());
            s.group == Some(Group(ReaderDone(Nil), Idle, Ticking, Waiting, false, true)) && !Cancelled(s)
  {
    var s1 := Apply(Start(), Connect);
    var s2 := Apply(s1, ReadNext);
    var s3 := Apply(s2, ReadPeerClosed);
    assert CleanClose()[1..] == [ReadNext, ReadPeerClosed];
    assert CleanClose()[1..][1..] == [ReadPeerClosed];
    assert CleanClose()[1..][1..][1..] == [];
    assert IsRun(s3, []) && IsRun(s2, [ReadPeerClosed]) && IsRun(s1, [ReadNext, ReadPeerClosed]);
  }

  // ---------- no deadlock ----------

  /** Steps of a cancelled connection that need nothing from the network: what the members
      do about the cancellation themselves, and the errors of a connection that is closed. */
  predicate Forced(s: State, e: Event)
    requires s.group.Some?
  {
    e.ReadCancelled? || e.WriteCancelled? || e.BeatCancelled? || e.Close? || e.WaitReturns? ||
    ((e.ReadFails? || e.WriteFails?) && !s.group.value.open)
  }

  predicate IsForcedRun(s: State, events: seq<Event>)
    decreases |events|
  {
    events == [] ||
    (s.group.Some? && Enabled(s, events[0]) && Forced(s, events[0]) && IsForcedRun(Apply(s, events[0]), events[1..]))
  }

  lemma {:induction false} ForcedIsRun(s: State, events: seq<Event>)
    requires IsForcedRun(s, events)
    ensures IsRun(s, events)
    decreases |events|
  {
    if events == [] {
    } else {
      ForcedIsRun(Apply(s, events[0]), events[1..]);
    }
  }

  /** How many members have not ended. */
  function Active(g: Group): nat {
    One(!g.reader.ReaderDone?) + One(!g.writer.WriterDone?) + One(g.beat.Ticking?) + One(g.closer.Waiting?)
  }

  /** A next forced step: first of all the fourth member closes the connection. */
  function ExitEvent(g: Group): Event {
    if g.closer.Waiting? then Close(Nil)
    else if g.reader.Top? then ReadCancelled
    else if g.reader.Reading? then ReadFails
    else if g.writer.Idle? then WriteCancelled
    else if g.writer.Writing? then WriteFails
    else if g.beat.Ticking? then BeatCancelled
    else WaitReturns
  }

  /** A cancelled connection ends by itself, in at most five steps, if the member that
      closes it has closed it whenever it has ended. */
  lemma {:induction false} CanAlwaysEnd(s: State) returns (events: seq<Event>)
    requires s.group.Some? && Cancelled(s) && (s.group.value.closer.CloserDone? ==> !s.group.value.open)
    ensures IsForcedRun(s, events) && IsRun(s, events) && After(s, events).group == None
    ensures |events| == Active(s.group.value) + 1 <= 5
    decreases Active(s.group.value)
  {
    var e := ExitEvent(s.group.value);
    var s1 := Apply(s, e);
    if e.WaitReturns? {
      events := [e];
      assert events[1..] == [];
    } else {
      var rest := CanAlwaysEnd(s1);
      events := [e] + rest;
      assert events[1..] == rest;
    }
  }

  /** In every run, from every state of a cancelled connection, whatever its members are
      blocked in. */
  lemma {:induction false} EveryCancelledConnectionEnds(events: seq<Event>) returns (more: seq<Event>)
    requires IsRun(Start(), events)
    requires After(Start(), events).group.Some? && Cancelled(After(Start(), events))
    ensures IsForcedRun(After(Start(), events), more) && IsRun(After(Start(), events), more)
    ensures After(After(Start(), events), more).group == None
  {
    InvStart();
    InvRun(Start(), events);
    more := CanAlwaysEnd(After(Start(), events));
  }

  /** It is the closing that does it: without it a reader blocked in a read stays blocked,
      and Wait does not return. */
  lemma {:induction false} OnlyTheClosingUnblocks(s: State, events: seq<Event>)
    requires s.group.Some? && s.group.value.reader.Reading? && s.group.value.open
    requires IsForcedRun(s, events) && forall i | 0 <= i < |events| :: !events[i].Close?
    ensures IsRun(s, events)
    ensures var g := After(s, events).group; g.Some? && g.value.reader.Reading? && g.value.open
    decreases |events|
  {
    ForcedIsRun(s, events);
    if events == [] {
    } else {
      OnlyTheClosingUnblocks(Apply(s, events[0]), events[1..]);
    }
  }

  // ---------- no livelock ----------

  /** Work left on a cancelled connection, the heartbeat's ticks aside. */
  function Work(s: State): nat
    requires s.group.Some?
  {
    var g := s.group.value;
    (match g.reader case Top => 1 case Reading => 6 case ReaderDone(_) => 0) +
    (match g.writer case Idle => 1 case Writing(_) => 2 case WriterDone(_) => 0) +
    One(g.beat.Ticking?) + One(g.closer.Waiting?) +
    3 * |s.running| + s.notes + 2 * |s.queue| + One(!s.shutdown)
  }

  function Ticks(events: seq<Event>): nat {
    if events == [] then 0 else One(events[0].Tick?) + Ticks(events[1..])
  }

  lemma {:induction false} WorkStep(s: State, e: Event)
    requires s.group.Some? && Cancelled(s) && Enabled(s, e) && !e.WaitReturns?
    ensures var s1 := Apply(s, e);
            && s1.group.Some? && Cancelled(s1)
            && (if e.Tick? then Work(s1) <= Work(s) + 2 else Work(s1) < Work(s))
  {
    if e.ReadFrame? {
      FrameWork(s, e.frame);
    } else if e.Finish? {
      FinishWork(s, e);
    } else if IsReaderEvent(e) {
      ReaderWork(s, e);
    }
  }

  lemma {:induction false} ReaderWork(s: State, e: Event)
    requires s.group.Some? && Cancelled(s) && Enabled(s, e) && IsReaderEvent(e) && !e.ReadFrame?
    ensures var s1 := Apply(s, e); s1.group.Some? && Cancelled(s1) && Work(s1) < Work(s)
  {}

  lemma {:induction false} FrameWork(s: State, f: Frame)
    requires s.group.Some? && Enabled(s, ReadFrame(f))
    ensures Work(Apply(s, ReadFrame(f))) < Work(s)
  {
    assert |s.running + {|s.requests|}| <= |s.running| + 1;
  }

  lemma {:induction false} FinishWork(s: State, e: Event)
    requires s.group.Some? && Enabled(s, e) && e.Finish?
    ensures Work(Apply(s, e)) < Work(s)
  {
    assert |s.running - {e.req}| == |s.running| - 1;
  }

  /** Once cancelled, a connection cannot go on for ever: however events interleave, all
      but the heartbeat's ticks are bounded by the work left and the ticks. */
  lemma {:induction false} CancelledRunsAreShort(s: State, events: seq<Event>)
    requires s.group.Some? && Cancelled(s) && IsRun(s, events) && WaitReturns !in events
    ensures After(s, events).group.Some? && |events| + Work(After(s, events)) <= Work(s) + 3 * Ticks(events)
    decreases |events|
  {
    if events == [] {
    } else {
      WorkStep(s, events[0]);
      CancelledRunsAreShort(Apply(s, events[0]), events[1..]);
    }
  }

  // ---------- the goroutines' own code ----------

  /** The daemon's channel and handlers. `log` is the step system's view of the same. */
  class Daemon {
    const handlers: set<string>
    var sendCh: seq<Message>
    ghost var log: State

    ghost predicate Valid()
      reads this
    {
      sendCh == log.queue && Inv(log)
    }

    constructor (handlers: set<string>)
      ensures Valid() && log == Start() && this.handlers == handlers
    {
      this.handlers := handlers;
      sendCh := [];
      log := Start();
      new;
      InvStart();
    }

    /** The select with a default branch. */
    method Send(m: Message)
      requires sendCh == log.queue
      modifies this
      ensures sendCh == log.queue && log == Offer(old(log), m)
      ensures sendCh == if |old(sendCh)| < 64 then old(sendCh) + [m] else old(sendCh)
    {
      if |sendCh| < CAPACITY {
        sendCh := sendCh + [m];
      }
      log := Offer(log, m);
    }

    method SendResponse(req: nat, id: string, reply: Reply)
      requires sendCh == log.queue
      modifies this
      ensures sendCh == log.queue && log == Offer(old(log), Response(req, id, reply))
      ensures sendCh == if |old(sendCh)| < 64 then old(sendCh) + [Response(req, id, reply)] else old(sendCh)
    {
      Send(Response(req, id, reply));
    }

    /** handleRequest, from the handler's outcome on. If there is room, one response with the
        request's id is enqueued: the handler's result if there is a handler and it returned
        one, and otherwise the error of the case. */
    method HandleRequest(req: nat, id: string, name: string, outcome: Handling)
      requires Valid() && req in log.running && req < |log.requests| && log.requests[req] == Request(id, name)
      requires !outcome.NoHandler?
      modifies this
      ensures Valid()
      ensures var e := Finish(req, if name in handlers then outcome else NoHandler);
              Enabled(old(log), e) && log == Apply(old(log), e)
      ensures |old(sendCh)| >= 64 ==> sendCh == old(sendCh)
      ensures |old(sendCh)| < 64 ==>
                |sendCh| == |old(sendCh)| + 1 && sendCh[..|old(sendCh)|] == old(sendCh) &&
                var m := sendCh[|old(sendCh)|];
                && m.Response? && m.req == req && m.id == id
                && (m.reply.Result? <==> name in handlers && outcome.HandlerReturns?)
                && (m.reply.Result? ==> m.reply.json == outcome.json)
                && (name !in handlers ==> m.reply == Error(-32601, "method not found: " + name))
                && (name in handlers && outcome.HandlerFails? ==> m.reply == Error(-32000, outcome.message))
                && (name in handlers && outcome.NotMarshalled? ==> m.reply == Error(-32603, "failed to marshal result"))
    {
      InvStep(log, Finish(req, if name in handlers then outcome else NoHandler));
      log := log.(running := log.running - {req});
      if name !in handlers {
        SendResponse(req, id, Error(-32601, "method not found: " + name));
        return;
      }
      match outcome
      case HandlerFails(message) => SendResponse(req, id, Error(-32000, message));
      case NotMarshalled => SendResponse(req, id, Error(-32603, "failed to marshal result"));
      case HandlerReturns(json) => SendResponse(req, id, Result(json));
    }

    /** One turn of the dispatch in readLoop: requests and notifications get a goroutine
        each; only requests are numbered. */
    method HandleFrame(frame: Frame) returns (started: Option<Request>)
      requires Valid() && Enabled(log, ReadFrame(frame))
      modifies this
      ensures Valid() && log == Apply(old(log), ReadFrame(frame))
      ensures started.Some? <==> frame.Frame? && frame.name != "" && frame.id.Some?
      ensures started.Some? ==> log.requests == old(log.requests) + [started.value] && |old(log.requests)| in log.running
      ensures started.Some? ==> started.value == Request(frame.id.value, frame.name)
      ensures started.None? ==> log.requests == old(log.requests) && log.running == old(log.running)
      ensures log.notes == old(log.notes) + if frame.Frame? && frame.name != "" && frame.id.None? then 1 else 0
    {
      InvStep(log, ReadFrame(frame));
      log := Apply(log, ReadFrame(frame));
      started := None;
      if frame.Frame? && frame.name != "" {
        if frame.id.Some? {
          started := Some(Request(frame.id.value, frame.name));
        }
      }
    }

    method HeartbeatTick()
      requires Valid() && Enabled(log, Tick)
      modifies this
      ensures Valid() && log == Apply(old(log), Tick)
      ensures sendCh == if |old(sendCh)| < 64 then old(sendCh) + [Heartbeat] else old(sendCh)
    {
      InvStep(log, Tick);
      Send(Heartbeat);
    }

    lemma OldestTaken(s: State, works: bool)
      requires Enabled(s, Take) && s.group.value.open
      ensures s.queue == [s.queue[0]] + Apply(s, Take).queue
      ensures var e := if works then WriteOk else WriteFails;
              var taken := Apply(s, Take);
              && Enabled(taken, e) && Apply(taken, e).queue == s.queue[1..]
              && Apply(taken, e).fates == s.fates + [Fate(s.queue[0], works)]
    {}

    /** One turn of writeLoop with a message ready, whether the write succeeds or not. */
    method WriteOne(works: bool)
      requires Valid() && Enabled(log, Take) && log.group.value.open
      modifies this
      ensures Valid()
      ensures var e := if works then WriteOk else WriteFails;
              var taken := Apply(old(log), Take);
              Enabled(taken, e) && log == Apply(taken, e)
      ensures old(sendCh) == [old(sendCh)[0]] + sendCh
      ensures log.fates == old(log.fates) + [Fate(old(sendCh)[0], works)]
    {
      OldestTaken(log, works);
      InvStep(log, Take);
      ghost var taken := Apply(log, Take);
      ghost var e := if works then WriteOk else WriteFails;
      InvStep(taken, e);
      sendCh := sendCh[1..];
      log := Apply(taken, e);
    }
  }
}
