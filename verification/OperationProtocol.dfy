/**
 The composer operation client of one run directory, as a step system: write the request ahead, send
 it, poll, replay only what the server does not know, and resume after a crash at any point, against
 a server whose responses may be lost and whose deliveries may be late.
 */
module OperationProtocol {
  import opened Common

  datatype Body = Body(content: string, operationId: string, stateId: Option<string>)

  /** `composer_request.json` */
  datatype Retained = Retained(base: string, session: string, body: Body)

  /** `composer_terminal.json`: the admission was refused, or the operation ended. */
  datatype Terminal = Refused(status: nat) | Completed | Failed

  datatype File = Absent | Garbled | Parses

  datatype Disk = Disk(request: Option<Retained>, terminal: Option<Terminal>, messages: File, meta: File, reviews: File)

  /** What went over the wire for messages: a POST of the message, or a 404 for its operation. */
  datatype Wire = Sent(session: string, body: Body) | Denied

  datatype Pc =
    | Loading | Creating | Preparing | Heading | Persisting | Posting | Refusing(status: nat)
    | Observing | Replaying | Concluding(terminal: Terminal) | Capturing(written: nat)

  datatype Client =
    | Idle
    | Proc(pc: Pc, prompt: string, base: string, retained: Option<Retained>, session: string, body: Body,
        ambiguous: bool)

  /** `operations` and `served` are the server's: operations it has created, terminals it has reported. */
  datatype State = State(
    disk: Disk, client: Client, wire: seq<Wire>, operations: set<(string, string)>, served: set<Terminal>)

  datatype Payload = NotFound | OpCompleted | OpFailed | OpPending | Other

  datatype Reply = Lost | Reply(status: nat, payload: Payload)

  /** Whatever the outside contributes to one statement. */
  datatype Input = Input(reply: Reply, session: string, operationId: string, stateId: Option<string>, expired: bool)

  datatype Event =
    | Starts(prompt: string, base: string, resume: bool)
    | Proceeds(input: Input)
    | Crashes
    | Tears
    | Raises(contained: bool)
    | Delivers(i: nat)

  const EMPTY_BODY := Body("", "", None)

  const BLANK := State(Disk(None, None, Absent, Absent, Absent), Idle, [], {}, {})

  /** `run_dir_is_complete` */
  predicate IsComplete(d: Disk) {
    && !(d.request.Some? && d.terminal.None?)
    && d.messages == Parses && d.meta == Parses && d.reviews == Parses
  }

  function Key(r: Retained): (string, string) { (r.session, r.body.operationId) }

  predicate Enabled(s: State, e: Event) {
    match e
    case Starts(_, _, _) => s.client.Idle?
    case Proceeds(_) => s.client.Proc?
    case Crashes => s.client.Proc?
    case Tears => s.client.Proc? && s.client.pc.Capturing?
    case Raises(_) => s.client.Proc?
    case Delivers(i) => i < |s.wire| && s.wire[i].Sent?
  }

  // ---- One statement of the client ----

  function At(c: Client, pc: Pc): Client
    requires c.Proc?
  {
    c.(pc := pc)
  }

  function Load(s: State): State
    requires s.client.Proc?
  {
    var c, r := s.client, s.disk.request;
    if r.None? then s.(client := At(c, Creating))
    else if r.value.base != c.base || r.value.body.content != c.prompt then Contain(s)
    else s.(client := c.(pc := Preparing, retained := r, session := r.value.session, body := r.value.body))
  }

  /** An exception is contained: missing captures are filled in, and the run is over. */
  function Contain(s: State): State {
    var fill := (f: File) => if f == Absent then Parses else f;
    s.(disk := s.disk.(messages := fill(s.disk.messages), meta := fill(s.disk.meta), reviews := fill(s.disk.reviews)),
       client := Idle)
  }

  function Create(s: State, x: Input): State
    requires s.client.Proc?
  {
    if x.reply.Reply? && x.reply.status == 201 then s.(client := s.client.(pc := Preparing, session := x.session))
    else s.(disk := s.disk.(messages := Parses, meta := Parses, reviews := Parses), client := Idle)
  }

  function Head(s: State, x: Input): State
    requires s.client.Proc?
  {
    var c := s.client;
    if c.retained.Some? then s.(client := c.(pc := Observing, ambiguous := true))
    else if x.reply.Reply? && x.reply.status == 200 then
      s.(client := c.(pc := Persisting, body := Body(c.prompt, x.operationId, x.stateId)))
    else s.(client := At(c, Capturing(0)))
  }

  function Persist(s: State): State
    requires s.client.Proc?
  {
    var c := s.client;
    s.(disk := s.disk.(request := Some(Retained(c.base, c.session, c.body))), client := At(c, Posting))
  }

  function Send(s: State): State
    requires s.client.Proc?
  {
    s.(wire := s.wire + [Sent(s.client.session, s.client.body)])
  }

  function Post(s: State, x: Input): State
    requires s.client.Proc?
  {
    var t, c := Send(s), s.client;
    if x.reply.Lost? then t.(client := c.(pc := Observing, ambiguous := true))
    else if 400 <= x.reply.status < 500
        then t.(client := At(c, Refusing(x.reply.status)), served := s.served + {Refused(x.reply.status)})
    else if x.reply.status == 202 then t.(client := c.(pc := Observing, ambiguous := false))
    else t.(client := At(c, Capturing(0)))
  }

  function Observe(s: State, x: Input): State
    requires s.client.Proc?
  {
    var c := s.client;
    if x.expired then s.(client := At(c, Capturing(0)))
    else if x.reply.Lost? then s
    else if c.ambiguous && x.reply.status == 404 && x.reply.payload == NotFound then
      s.(wire := s.wire + [Denied], client := At(c, Replaying))
    else if x.reply.status != 200 then s.(client := At(c, Capturing(0)))
    else
      match x.reply.payload
      case OpCompleted => s.(client := At(c, Concluding(Completed)), served := s.served + {Completed})
      case OpFailed => s.(client := At(c, Concluding(Failed)), served := s.served + {Failed})
      case _ => s
  }

  function Replay(s: State, x: Input): State
    requires s.client.Proc?
  {
    var t := Send(s);
    t.(client := s.client.(pc := Observing,
                           ambiguous := s.client.ambiguous && !(x.reply.Reply? && x.reply.status == 202)))
  }

  function Conclude(s: State, t: Terminal): State
    requires s.client.Proc?
  {
    s.(disk := s.disk.(terminal := Some(t)), client := At(s.client, Capturing(0)))
  }

  /** Reviews, then messages, then meta; the run is over when all are written. */
  function Capture(s: State, written: nat): State
    requires s.client.Proc?
  {
    if written == 0 then s.(disk := s.disk.(reviews := Parses), client := At(s.client, Capturing(1)))
    else if written == 1 then s.(disk := s.disk.(messages := Parses), client := At(s.client, Capturing(2)))
    else s.(disk := s.disk.(meta := Parses), client := Idle)
  }

  function Tear(s: State, written: nat): State {
    s.(client := Idle,
       disk := if written == 0 then s.disk.(reviews := Garbled)
               else if written == 1 then s.disk.(messages := Garbled)
               else s.disk.(meta := Garbled))
  }

  function Proceed(s: State, x: Input): State
    requires s.client.Proc?
  {
    match s.client.pc
    case Loading => Load(s)
    case Creating => Create(s, x)
    case Preparing => s.(client := At(s.client, Heading))
    case Heading => Head(s, x)
    case Persisting => Persist(s)
    case Posting => Post(s, x)
    case Refusing(status) => Conclude(s, Refused(status))
    case Observing => Observe(s, x)
    case Replaying => Replay(s, x)
    case Concluding(t) => Conclude(s, t)
    case Capturing(k) => Capture(s, k)
  }

  function Step(s: State, e: Event): State
    requires Enabled(s, e)
  {
    match e
    case Starts(prompt, base, resume) =>
      if resume && IsComplete(s.disk) then s
      else s.(client := Proc(Loading, prompt, base, None, "", EMPTY_BODY, false))
    case Proceeds(x) => Proceed(s, x)
    case Crashes => s.(client := Idle)
    case Tears => Tear(s, s.client.pc.written)
    case Raises(contained) => if contained then Contain(s) else s.(client := Idle)
    case Delivers(i) => s.(operations := s.operations + {(s.wire[i].session, s.wire[i].body.operationId)})
  }

  ghost predicate ValidRun(s: State, es: seq<Event>)
    decreases |es|
  {
    es == [] || (Enabled(s, es[0]) && ValidRun(Step(s, es[0]), es[1..]))
  }

  function After(s: State, es: seq<Event>): State
    requires ValidRun(s, es)
    decreases |es|
  {
    if es == [] then s else After(Step(s, es[0]), es[1..])
  }

  // ---- What every state of every run satisfies ----

  /** Nothing but the retained action is ever sent, and nothing before it is retained. */
  ghost predicate OnlyRetained(s: State) {
    && (s.disk.request.None? ==> s.wire == [] && s.operations == {} && s.disk.terminal.None?)
    && (s.disk.request.Some? ==>
          && (forall i :: 0 <= i < |s.wire| && s.wire[i].Sent? ==>
                s.wire[i] == Sent(s.disk.request.value.session, s.disk.request.value.body))
          && s.operations <= {Key(s.disk.request.value)})
    && (s.disk.terminal.Some? ==> s.disk.terminal.value in s.served)
  }

  /** Between two sends the server has denied knowing the operation. */
  ghost predicate NoBlindRepeat(wire: seq<Wire>) {
    forall i :: 0 <= i && i + 1 < |wire| ==> wire[i].Denied? || wire[i + 1].Denied?
  }

  /** What the process holds agrees with what is on disk. */
  ghost predicate InStep(s: State) {
    s.client.Proc? ==>
      var c := s.client;
      match c.pc
      case Loading => c.retained.None?
      case Creating => c.retained.None? && s.disk.request.None?
      case Preparing => Holding(s)
      case Heading => Holding(s)
      case Persisting => c.retained.None? && s.disk.request.None?
      case Posting => s.wire == [] && Sendable(s)
      case Refusing(status) => s.disk.request.Some? && Refused(status) in s.served
      case Observing => Sendable(s)
      case Replaying => Sendable(s) && s.wire != [] && s.wire[|s.wire| - 1].Denied?
      case Concluding(t) => s.disk.request.Some? && t in s.served
      case Capturing(_) => true
  }

  ghost predicate Holding(s: State)
    requires s.client.Proc?
  {
    && s.client.retained == s.disk.request
    && (s.disk.request.Some? ==>
          s.client.session == s.disk.request.value.session && s.client.body == s.disk.request.value.body)
  }

  ghost predicate Sendable(s: State)
    requires s.client.Proc?
  {
    && s.disk.request.Some?
    && s.client.session == s.disk.request.value.session && s.client.body == s.disk.request.value.body
  }

  ghost predicate Inv(s: State) { OnlyRetained(s) && NoBlindRepeat(s.wire) && InStep(s) }

  lemma {:induction false} InvLoad(s: State)
    requires Inv(s) && s.client.Proc? && s.client.pc == Loading
    ensures Inv(Load(s))
  {
  }

  lemma {:induction false} InvCreateOrHead(s: State, x: Input)
    requires Inv(s) && s.client.Proc?
    ensures s.client.pc == Creating ==> Inv(Create(s, x))
    ensures s.client.pc == Heading ==> Inv(Head(s, x))
  {
  }

  lemma {:induction false} InvPersist(s: State)
    requires Inv(s) && s.client.Proc? && s.client.pc == Persisting
    ensures Inv(Persist(s))
  {
  }

  lemma {:induction false} InvPost(s: State, x: Input)
    requires Inv(s) && s.client.Proc? && s.client.pc == Posting
    ensures Inv(Post(s, x))
  {
    assert Send(s).wire == [Sent(s.client.session, s.client.body)];
  }

  lemma {:induction false} InvObserve(s: State, x: Input)
    requires Inv(s) && s.client.Proc? && s.client.pc == Observing
    ensures Inv(Observe(s, x))
  {
  }

  lemma {:induction false} InvReplay(s: State, x: Input)
    requires Inv(s) && s.client.Proc? && s.client.pc == Replaying
    ensures Inv(Replay(s, x))
  {
  }

  lemma {:induction false} InvConclude(s: State, t: Terminal)
    requires Inv(s) && s.client.Proc? && s.disk.request.Some? && t in s.served
    ensures Inv(Conclude(s, t))
  {
  }

  lemma {:induction false} InvProceed(s: State, x: Input)
    requires Inv(s) && s.client.Proc?
    ensures Inv(Proceed(s, x))
  {
    match s.client.pc
    case Loading => InvLoad(s);
    case Creating => InvCreateOrHead(s, x);
    case Heading => InvCreateOrHead(s, x);
    case Persisting => InvPersist(s);
    case Posting => InvPost(s, x);
    case Refusing(status) => InvConclude(s, Refused(status));
    case Observing => InvObserve(s, x);
    case Replaying => InvReplay(s, x);
    case Concluding(t) => InvConclude(s, t);
    case Preparing =>
    case Capturing(_) =>
  }

  lemma {:induction false} InvStep(s: State, e: Event)
    requires Inv(s) && Enabled(s, e)
    ensures Inv(Step(s, e))
  {
    if e.Proceeds? { InvProceed(s, e.input); }
  }

  lemma {:induction false} InvRun(s: State, es: seq<Event>)
    requires Inv(s) && ValidRun(s, es)
    ensures Inv(After(s, es))
    decreases |es|
  {
    if es != [] {
      InvStep(s, es[0]);
      InvRun(Step(s, es[0]), es[1..]);
    }
  }

  /**
   Over every interleaving of crashes, resumes, lost replies, late deliveries and 404 replays: all
   messages ever sent for this directory are one and the same (session, operation, body), the server
   has at most one operation for it, and the client never repeats itself blindly.
   */
  lemma {:induction false} OneAction(es: seq<Event>)
    requires ValidRun(BLANK, es)
    ensures var s := After(BLANK, es);
            && (forall i, j :: 0 <= i < j < |s.wire| && s.wire[i].Sent? && s.wire[j].Sent? ==> s.wire[i] == s.wire[j])
            && |s.operations| <= 1
            && NoBlindRepeat(s.wire)
  {
    InvRun(BLANK, es);
    var s := After(BLANK, es);
    if s.disk.request.Some? {
      var key := Key(s.disk.request.value);
      assert s.operations == {} || s.operations == {key};
    }
  }

  /** A directory whose message was ever sent counts as complete only with a terminal the server reported. */
  lemma {:induction false} CompleteMeansTerminal(es: seq<Event>)
    requires ValidRun(BLANK, es) && IsComplete(After(BLANK, es).disk)
    requires After(BLANK, es).wire != []
    ensures var s := After(BLANK, es); s.disk.terminal.Some? && s.disk.terminal.value in s.served
  {
    InvRun(BLANK, es);
  }

  lemma {:induction false} RequestKept(s: State, e: Event)
    requires Inv(s) && Enabled(s, e) && s.disk.request.Some?
    ensures Step(s, e).disk.request == s.disk.request
  {
  }

  /** Once written ahead, the request is never replaced, whatever prompt or substrate later runs ask for. */
  lemma {:induction false} RequestIsForever(s: State, es: seq<Event>)
    requires Inv(s) && ValidRun(s, es) && s.disk.request.Some?
    ensures After(s, es).disk.request == s.disk.request
    decreases |es|
  {
    if es != [] {
      InvStep(s, es[0]);
      RequestKept(s, es[0]);
      RequestIsForever(Step(s, es[0]), es[1..]);
    }
  }
}
