/** One session: id counter, handler tables, dispatch. Foreign code, the sender and the message
    handlers, may call back into the session while it runs, to any depth. */
module Sessions {
  import opened Results
  import opened Json
  import opened Messages

  // ---- Foreign code ----

  datatype Verdict = Accept | Refuse | Reply(answer: Answer)

  /** One run of foreign code: the calls it makes on the session while it runs, and how it
      ends. Any finite tree of nested calls is one of these. */
  datatype Foreign = Foreign(calls: seq<Call>, verdict: Verdict)

  datatype Call =
    | SetSender(present: bool)
    | Register(name: string)
    | RegisterNotification(name: string)
    | OnPostSend(name: string, present: bool)
    | SendRequest(kind: RequestKind, params: Option<Json>, sending: Foreign)
    | SendNotification(name: string, hasParams: bool, params: Option<Json>, sending: Foreign)
    | Receive(message: Option<Json>, handling: Foreign, sending: Foreign, afterwards: Foreign)

  // ---- The record of a run ----

  /** What happened, in order: an id was issued, a request is about to be sent, the sender or a handler
      was given a message, a response handler ran; and what became of a request that was accepted.
      `token` is the position at which that was, and names the request; `pending` says whether a
      response handler is registered for id at the time, and `callback` whether the method of the
      request has a post-send callback then. */
  datatype Event =
    | Issued(id: int)
    | Sending(id: int, pending: bool)
    | Handed(message: Json)
    | Running(id: int, pending: bool)
    | Noticed(message: Json)
    | Asked(token: nat, id: int, message: Json)
    | Replying(token: nat, reply: Json)
    | Delivered(token: nat, callback: bool)
    | PostSent(token: nat)

  predicate About(e: Event, token: nat) {
    (e.Asked? || e.Replying? || e.Delivered? || e.PostSent?) && e.token == token
  }

  /** The events of one received request. */
  ghost function Trail(log: seq<Event>, token: nat): seq<Event> {
    if log == [] then []
    else
      var e := log[|log| - 1];
      Trail(log[..|log| - 1], token) + if About(e, token) then [e] else []
  }

  /** The ids issued, in order. */
  ghost function Ids(log: seq<Event>): seq<int> {
    if log == [] then []
    else
      var e := log[|log| - 1];
      Ids(log[..|log| - 1]) + if e.Issued? then [e.id] else []
  }

  /** A request is answered at most once, with its own id and one result or error, and its post-send
      callback runs at most once, only after the answer was delivered, and only if it was set then. */
  ghost predicate AnsweredInOrder(trail: seq<Event>) {
    && |trail| <= 4
    && (|trail| > 0 ==> trail[0].Asked?)
    && (|trail| > 1 ==> trail[1].Replying? && exists answer :: trail[1].reply == ReplyMessage(trail[0].id, answer))
    && (|trail| > 2 ==> trail[2].Delivered?)
    && (|trail| > 3 ==> trail[3].PostSent? && trail[2].callback)
  }

  /** Handlers are registered while their request is sent, and gone when they run. */
  ghost predicate HandlerTiming(log: seq<Event>) {
    forall j :: 0 <= j < |log| ==> (log[j].Sending? ==> log[j].pending) && (log[j].Running? ==> !log[j].pending)
  }

  ghost predicate TokensArePast(log: seq<Event>) {
    forall j, t: nat :: 0 <= j < |log| && About(log[j], t) ==> t <= j
  }

  ghost predicate GoodLog(log: seq<Event>) {
    TokensArePast(log) && HandlerTiming(log) && forall t: nat :: AnsweredInOrder(Trail(log, t))
  }

  /** Events of one stretch of a run concern no request accepted before it. */
  ghost predicate Fresh(log: seq<Event>, start: nat) {
    forall j, t: nat :: start <= j < |log| && About(log[j], t) ==> start <= t
  }

  lemma {:induction false} TrailUnaffected(before: seq<Event>, log: seq<Event>, token: nat)
    requires before <= log && Fresh(log, |before|) && token < |before|
    ensures Trail(log, token) == Trail(before, token)
    decreases |log|
  {
    if |log| > |before| {
      TrailUnaffected(before, log[..|log| - 1], token);
    } else {
      assert log == before;
    }
  }

  lemma {:induction false} NoTrailYet(log: seq<Event>, token: nat)
    requires TokensArePast(log) && |log| <= token
    ensures Trail(log, token) == []
  {
    if log == [] {
    } else {
      NoTrailYet(log[..|log| - 1], token);
    }
  }

  /** Adding an event that fits the trail of its request keeps the log good. */
  lemma Logged(log: seq<Event>, e: Event)
    requires GoodLog(log)
    requires e.Sending? ==> e.pending
    requires e.Running? ==> !e.pending
    requires forall t: nat :: About(e, t) ==> t <= |log| && AnsweredInOrder(Trail(log, t) + [e])
    ensures GoodLog(log + [e])
  {
    var l := log + [e];
    assert l[..|l| - 1] == log;
    forall t: nat ensures AnsweredInOrder(Trail(l, t)) {
      assert Trail(l, t) == Trail(log, t) + if About(e, t) then [e] else [];
    }
  }

  // ---- What every stretch of a run keeps ----

  datatype State = State(nextId: int, pending: map<int, RequestKind>, promises: map<int, Option<Settlement>>,
                         log: seq<Event>)

  const INITIAL := State(1, map[], map[], [])

  ghost function Count(n: nat): seq<int> { seq(n, i => i + 1) }

  /** Ids 1, 2, 3... were issued in order; the pending ones are among them, and their promises
      are not set. */
  ghost predicate Good(s: State) {
    && 1 <= s.nextId && Ids(s.log) == Count(s.nextId - 1)
    && (forall id :: id in s.promises ==> 1 <= id < s.nextId)
    && (forall id :: id in s.pending ==> id in s.promises && s.promises[id].None?)
    && GoodLog(s.log)
  }

  // ---- Moves ----

  /** The steps that every run of a session is made of: an id is used up for a request that cannot be
      built, or a request is registered; a message is handed to the sender; a response is handled; a
      notification is handled; a request is accepted, its answer is made, the answer is delivered, and
      the post-send callback called. */
  datatype Move =
    | Skipping
    | Posting(kind: RequestKind)
    | Handing(message: Json)
    | Settling(id: int, settled: Result<Settlement>)
    | Noticing(message: Json)
    | Accepting(id: int, message: Json)
    | Answering(token: nat, answer: Answer)
    | Delivering(token: nat, callback: bool)
    | CallingBack(token: nat)

  ghost predicate CanMove(s: State, m: Move) {
    match m
    case Settling(id, _) => id in s.pending
    case Answering(token, _) => |Trail(s.log, token)| == 1 && Trail(s.log, token)[0].Asked?
    case Delivering(token, _) => |Trail(s.log, token)| == 2
    case CallingBack(token) =>
      |Trail(s.log, token)| == 3 && Trail(s.log, token)[2].Delivered? && Trail(s.log, token)[2].callback
    case _ => true
  }

  /** A move that only adds to the record. */
  predicate IsRecorded(m: Move) { !m.Skipping? && !m.Posting? && !m.Settling? }

  /** What it adds. */
  ghost function EventOf(s: State, m: Move): Event
    requires CanMove(s, m) && IsRecorded(m)
  {
    match m
    case Handing(message) => Handed(message)
    case Noticing(message) => Noticed(message)
    case Accepting(id, message) => Asked(|s.log|, id, message)
    case Answering(token, answer) => Replying(token, ReplyMessage(Trail(s.log, token)[0].id, answer))
    case Delivering(token, callback) => Delivered(token, callback)
    case CallingBack(token) => PostSent(token)
  }

  /** The state after an id was issued and no message was built. */
  ghost function Skipped(s: State): State {
    s.(nextId := s.nextId + 1, log := s.log + [Issued(s.nextId)])
  }

  /** The state when a request is handed to the sender. */
  ghost function Posted(s: State, kind: RequestKind): State {
    State(s.nextId + 1, s.pending[s.nextId := kind], s.promises[s.nextId := None],
          s.log + [Issued(s.nextId)] + [Sending(s.nextId, true)])
  }

  /** The state after the response to `id` was handled. */
  ghost function Settled(s: State, id: int, settled: Result<Settlement>): State {
    State(s.nextId, s.pending - {id},
          if settled.Success? then s.promises[id := Some(settled.value)] else s.promises,
          s.log + [Running(id, false)])
  }

  ghost function After(s: State, m: Move): State
    requires CanMove(s, m)
  {
    match m
    case Skipping => Skipped(s)
    case Posting(kind) => Posted(s, kind)
    case Settling(id, settled) => Settled(s, id, settled)
    case _ => s.(log := s.log + [EventOf(s, m)])
  }

  ghost predicate Leads(s: State, moves: seq<Move>, t: State)
    decreases |moves|
  {
    if moves == [] then s == t
    else CanMove(s, moves[0]) && Leads(After(s, moves[0]), moves[1..], t)
  }

  ghost predicate Follows(s: State, t: State) {
    exists moves :: Leads(s, moves, t)
  }

  /** b can follow a: moves lead from a to b; the record only grows, promises that were set stay as
      they are, and a handler that was removed, or an id that never had one, gets none again. */
  ghost predicate Later(a: State, b: State) {
    && Follows(a, b) && a.log <= b.log && Fresh(b.log, |a.log|) && a.nextId <= b.nextId
    && (forall id :: id in a.promises ==>
         id in b.promises && (a.promises[id].Some? ==> b.promises[id] == a.promises[id]))
    && (forall id :: id in b.pending && id < a.nextId ==> id in a.pending && a.pending[id] == b.pending[id])
  }

  lemma {:induction false} LeadsFurther(s: State, first: seq<Move>, t: State, second: seq<Move>, u: State)
    requires Leads(s, first, t) && Leads(t, second, u)
    ensures Leads(s, first + second, u)
    decreases |first|
  {
    if first == [] {
      assert first + second == second;
    } else {
      LeadsFurther(After(s, first[0]), first[1..], t, second, u);
      assert (first + second)[1..] == first[1..] + second;
    }
  }

  lemma FollowsIsTransitive(s: State, t: State, u: State)
    requires Follows(s, t) && Follows(t, u)
    ensures Follows(s, u)
  {
    var first :| Leads(s, first, t);
    var second :| Leads(t, second, u);
    LeadsFurther(s, first, t, second, u);
  }

  lemma LaterIsTransitive(a: State, b: State, c: State)
    requires Later(a, b) && Later(b, c)
    ensures Later(a, c)
  {
    FollowsIsTransitive(a, b, c);
    forall j, t: nat | |a.log| <= j < |c.log| && About(c.log[j], t) ensures |a.log| <= t {
      if j < |b.log| {
        assert c.log[j] == b.log[j];
      }
    }
  }

  lemma FreshId(s: State)
    requires Good(s)
    ensures s.nextId !in s.pending && s.nextId !in s.promises
  {
  }

  lemma LaterIdsAreLarger(a: State, b: State)
    requires Later(a, b)
    ensures a.nextId <= b.nextId
  {
  }

  lemma FollowsItself(s: State)
    ensures Follows(s, s)
  {
    assert Leads(s, [], s);
  }

  lemma LaterItself(s: State)
    ensures Later(s, s)
  {
    FollowsItself(s);
  }

  lemma {:induction false} IdsSame(log: seq<Event>, e: Event)
    ensures Ids(log + [e]) == Ids(log) + if e.Issued? then [e.id] else []
  {
    assert (log + [e])[..|log|] == log;
  }

  lemma FollowsOneMove(s: State, m: Move)
    requires CanMove(s, m)
    ensures Follows(s, After(s, m))
  {
    assert [m][1..] == [];
    assert Leads(After(s, m), [], After(s, m));
    assert Leads(s, [m], After(s, m));
  }

  /** A move that concerns no request accepted before position `since`. */
  ghost predicate Concerns(m: Move, since: nat) {
    match m
    case Answering(token, _) => since <= token
    case Delivering(token, _) => since <= token
    case CallingBack(token) => since <= token
    case _ => true
  }

  lemma EventFits(s: State, m: Move, token: nat)
    requires Good(s) && CanMove(s, m) && IsRecorded(m) && About(EventOf(s, m), token)
    ensures token <= |s.log| && AnsweredInOrder(Trail(s.log, token) + [EventOf(s, m)])
  {
    assert AnsweredInOrder(Trail(s.log, token));
    if |s.log| <= token {
      NoTrailYet(s.log, token);
    }
  }

  lemma EventIsGood(s: State, e: Event)
    requires Good(s) && !e.Issued? && !e.Sending? && !e.Running?
    requires forall t: nat :: About(e, t) ==> t <= |s.log| && AnsweredInOrder(Trail(s.log, t) + [e])
    ensures Good(s.(log := s.log + [e]))
  {
    hide AnsweredInOrder;
    Logged(s.log, e);
    IdsSame(s.log, e);
  }

  lemma RecordedIsGood(s: State, m: Move)
    requires Good(s) && CanMove(s, m) && IsRecorded(m)
    ensures Good(s.(log := s.log + [EventOf(s, m)]))
  {
    hide Good, AnsweredInOrder;
    forall t: nat | About(EventOf(s, m), t)
      ensures t <= |s.log| && AnsweredInOrder(Trail(s.log, t) + [EventOf(s, m)])
    {
      EventFits(s, m, t);
    }
    EventIsGood(s, EventOf(s, m));
  }

  lemma SkippedIsGood(s: State)
    requires Good(s)
    ensures Good(Skipped(s))
  {
    hide AnsweredInOrder;
    Logged(s.log, Issued(s.nextId));
    IdsSame(s.log, Issued(s.nextId));
    assert Count(s.nextId) == Count(s.nextId - 1) + [s.nextId];
  }

  lemma PostedIsGood(s: State, kind: RequestKind)
    requires Good(s)
    ensures Good(Posted(s, kind))
  {
    hide AnsweredInOrder;
    var issued, e := s.log + [Issued(s.nextId)], Sending(s.nextId, true);
    Logged(s.log, Issued(s.nextId));
    Logged(issued, e);
    IdsSame(s.log, Issued(s.nextId));
    IdsSame(issued, e);
    assert Count(s.nextId) == Count(s.nextId - 1) + [s.nextId];
  }

  lemma SettledIsGood(s: State, id: int, settled: Result<Settlement>)
    requires Good(s) && id in s.pending
    ensures Good(Settled(s, id, settled))
  {
    hide AnsweredInOrder;
    Logged(s.log, Running(id, false));
    IdsSame(s.log, Running(id, false));
  }

  /** Every move keeps the invariant. */
  lemma MoveIsGood(s: State, m: Move)
    requires Good(s) && CanMove(s, m)
    ensures Good(After(s, m))
  {
    match m
    case Skipping => SkippedIsGood(s);
    case Posting(kind) => PostedIsGood(s, kind);
    case Settling(id, settled) => SettledIsGood(s, id, settled);
    case _ => RecordedIsGood(s, m);
  }

  /** A stretch of a run that ends with a move is still one. */
  lemma MoveIsLater(start: State, s: State, m: Move)
    requires Good(s) && Later(start, s) && CanMove(s, m) && Concerns(m, |start.log|)
    ensures Later(start, After(s, m))
  {
    hide Follows, Leads, GoodLog;
    FollowsOneMove(s, m);
    FollowsIsTransitive(start, s, After(s, m));
  }

  lemma NothingYet(s: State)
    requires Good(s)
    ensures Trail(s.log, |s.log|) == []
  {
    NoTrailYet(s.log, |s.log|);
  }

  /** The trail of a request grows with what happens to it. */
  lemma TrailGrows(log: seq<Event>, e: Event, token: nat)
    ensures Trail(log + [e], token) == Trail(log, token) + if About(e, token) then [e] else []
  {
    assert (log + [e])[..|log|] == log;
  }

  // ---- What a call does ----

  predicate CallsBack(requestHandlers: map<string, bool>, name: string) {
    name in requestHandlers && requestHandlers[name]
  }

  /** A session as a whole: its state, whether a sender is set, the methods with a request handler, and
      whether a post-send callback is set for them, and the methods with a notification handler. */
  datatype Whole = Whole(now: State, sender: bool, requests: map<string, bool>, notifications: set<string>)

  ghost function Noted(a: Whole, e: Event): Whole { a.(now := a.now.(log := a.now.log + [e])) }

  function Given(params: Option<Json>): Json { if params.Some? then params.value else Null }

  /** Foreign code that starts in a ends in b: each call it makes takes the session from one state to
      the next. */
  ghost predicate Runs(codec: Codec, a: Whole, f: Foreign, b: Whole)
    decreases f, 1
  {
    exists stages :: Stages(codec, f, stages) && stages[0] == a && stages[|f.calls|] == b
  }

  ghost predicate Stages(codec: Codec, f: Foreign, stages: seq<Whole>)
    decreases f, 0
  {
    && |stages| == |f.calls| + 1
    && forall k :: 0 <= k < |f.calls| ==> Does(codec, stages[k], f.calls[k], stages[k + 1])
  }

  /** The call takes the session from a to b. */
  ghost predicate Does(codec: Codec, a: Whole, c: Call, b: Whole)
    decreases c, 2
  {
    match c
    case SetSender(present) => b == a.(sender := present)
    case Register(name) => b == a.(requests := a.requests[name := CallsBack(a.requests, name)])
    case RegisterNotification(name) => b == a.(notifications := a.notifications + {name})
    case OnPostSend(name, present) =>
      b == if name in a.requests then a.(requests := a.requests[name := present]) else a
    case SendRequest(kind, params, sending) =>
      if kind.hasParams && params.None? then b == a.(now := Skipped(a.now))
      else Sends(codec, a.(now := Posted(a.now, kind)), RequestMessage(a.now.nextId, kind, Given(params)), sending, b)
    case SendNotification(name, hasParams, params, sending) =>
      if hasParams && params.None? then b == a
      else Sends(codec, a, NotificationMessage(name, hasParams, Given(params)), sending, b)
    case Receive(message, handling, sending, afterwards) =>
      Receives(codec, a, message, handling, sending, afterwards, b)
  }

  /** The sender, if there is one, is given the message, and runs. */
  ghost predicate Sends(codec: Codec, a: Whole, message: Json, sending: Foreign, b: Whole)
    decreases sending, 2
  {
    if a.sender then Runs(codec, Noted(a, Handed(message)), sending, b) else b == a
  }

  /** A response settles its request, a notification and a request run their handlers, and what finds
      no handler changes nothing. */
  ghost predicate Receives(codec: Codec, a: Whole, message: Option<Json>, handling: Foreign, sending: Foreign,
                           afterwards: Foreign, b: Whole)
    decreases Call.Receive(message, handling, sending, afterwards), 1
  {
    match Classify(codec.accessors, message)
    case Malformed => b == a
    case Response(id) =>
      b == if id !in a.now.pending then a
           else a.(now := Settled(a.now, id, Settle(codec, a.now.pending[id], message.value)))
    case Request(id, name) =>
      if name !in a.requests then b == a
      else
        var token := |a.now.log|;
        exists handled ::
          && Runs(codec, Noted(a, Asked(token, id, message.value)), handling, handled)
          && (if handling.verdict.Reply?
              then Replies(codec, handled, token, id, name, message, handling, sending, afterwards, b)
              else b == handled)
    case Notification(name) =>
      if name !in a.notifications then b == a else Runs(codec, Noted(a, Noticed(message.value)), handling, b)
  }

  /** The reply is sent; and if that succeeds, the post-send callback of the method runs, if one is set
      by then. */
  ghost predicate Replies(codec: Codec, a: Whole, token: nat, id: int, name: string, message: Option<Json>,
                          handling: Foreign, sending: Foreign, afterwards: Foreign, b: Whole)
    requires handling.verdict.Reply?
    decreases Call.Receive(message, handling, sending, afterwards), 0
  {
    var reply := ReplyMessage(id, handling.verdict.answer);
    exists sent ::
      && Sends(codec, Noted(a, Replying(token, reply)), reply, sending, sent)
      && (if a.sender && sending.verdict.Accept? then CallsAfter(codec, sent, token, name, afterwards, b)
          else b == sent)
  }

  ghost predicate CallsAfter(codec: Codec, a: Whole, token: nat, name: string, afterwards: Foreign, b: Whole)
    decreases afterwards, 2
  {
    var callback := CallsBack(a.requests, name);
    var delivered := Noted(a, Delivered(token, callback));
    if callback then Runs(codec, Noted(delivered, PostSent(token)), afterwards, b) else b == delivered
  }

  lemma RunsThrough(codec: Codec, f: Foreign, stages: seq<Whole>)
    requires |stages| == |f.calls| + 1
    requires forall k :: 0 <= k < |f.calls| ==> Does(codec, stages[k], f.calls[k], stages[k + 1])
    ensures Runs(codec, stages[0], f, stages[|f.calls|])
  {
    assert Stages(codec, f, stages);
  }

  /** Foreign code that makes no call changes nothing. */
  lemma QuietRun(codec: Codec, a: Whole, f: Foreign, b: Whole)
    requires Runs(codec, a, f, b)
    ensures f.calls == [] ==> b == a
  {
  }

  lemma QuietSend(codec: Codec, a: Whole, message: Json, sending: Foreign, b: Whole)
    requires Sends(codec, a, message, sending, b)
    ensures sending.calls == [] ==> b == if a.sender then Noted(a, Handed(message)) else a
  {
    hide Runs;
    if a.sender {
      QuietRun(codec, Noted(a, Handed(message)), sending, b);
    }
  }

  lemma ReceivesRequest(codec: Codec, a: Whole, message: Json, id: int, name: string, handling: Foreign,
                        handled: Whole, sending: Foreign, afterwards: Foreign, b: Whole)
    requires Classify(codec.accessors, Some(message)) == Request(id, name) && name in a.requests
    requires Runs(codec, Noted(a, Asked(|a.now.log|, id, message)), handling, handled)
    requires if handling.verdict.Reply?
             then Replies(codec, handled, |a.now.log|, id, name, Some(message), handling, sending, afterwards, b)
             else b == handled
    ensures Receives(codec, a, Some(message), handling, sending, afterwards, b)
  {
  }

  lemma RepliesIf(codec: Codec, a: Whole, token: nat, id: int, name: string, message: Option<Json>,
                  handling: Foreign, sending: Foreign, sent: Whole, afterwards: Foreign, b: Whole)
    requires handling.verdict.Reply?
    requires var reply := ReplyMessage(id, handling.verdict.answer);
             Sends(codec, Noted(a, Replying(token, reply)), reply, sending, sent)
    requires if a.sender && sending.verdict.Accept? then CallsAfter(codec, sent, token, name, afterwards, b)
             else b == sent
    ensures Replies(codec, a, token, id, name, message, handling, sending, afterwards, b)
  {
  }

  // ---- The session ----

  /** The request accepted at `token` ended with outcome r: its handler was given the message; if that
      answered, the answer was sent with the request's id; the outcome is success exactly when the answer
      was delivered; and then the post-send callback ran exactly when one was set at that time. */
  ghost predicate Answered(log: seq<Event>, token: nat, id: int, message: Json, verdict: Verdict, r: Outcome) {
    var trail := Trail(log, token);
    && |trail| >= 1 && trail[0] == Asked(token, id, message)
    && (verdict.Reply? <==> |trail| >= 2)
    && (|trail| >= 2 ==> trail[1] == Replying(token, ReplyMessage(id, verdict.answer)))
    && (r.Pass? <==> |trail| >= 3)
    && (|trail| >= 3 ==> trail[2].Delivered? && (|trail| == 4 <==> trail[2].callback))
  }

  /** What happens meanwhile leaves the trail of an accepted request alone. */
  lemma Undisturbed(start: State, before: State, after: State, token: nat)
    requires Later(start, before) && Later(before, after) && token < |before.log|
    ensures Later(start, after) && Trail(after.log, token) == Trail(before.log, token)
  {
    LaterIsTransitive(start, before, after);
    TrailUnaffected(before.log, after.log, token);
  }

  class Session {
    const codec: Codec
    var senderPresent: bool

    /** The methods with a request handler, and whether a post-send callback is set. */
    var requestHandlers: map<string, bool>
    var notificationHandlers: set<string>
    var responseHandlers: map<int, RequestKind>
    /** The promises shared between response handlers and the futures handed out. */
    var promises: map<int, Option<Settlement>>
    var nextId: int
    ghost var log: seq<Event>

    ghost function Now(): State reads this { State(nextId, responseHandlers, promises, log) }

    ghost function All(): Whole reads this { Whole(Now(), senderPresent, requestHandlers, notificationHandlers) }

    ghost predicate Valid() reads this { Good(Now()) }

    constructor (codec: Codec)
      ensures Valid() && this.codec == codec && All() == Whole(INITIAL, false, map[], {})
    {
      this.codec := codec;
      senderPresent := false;
      requestHandlers, notificationHandlers, responseHandlers := map[], {}, map[];
      promises, nextId, log := map[], 1, [];
    }

    /** Records a move that only adds to the record, in a stretch that began at `start`. */
    ghost method Record(start: State, m: Move)
      requires Valid() && CanMove(Now(), m) && IsRecorded(m)
      requires Later(start, Now()) && Concerns(m, |start.log|)
      modifies this`log
      ensures Valid() && Now() == After(old(Now()), m) && Later(start, Now())
      ensures All() == Noted(old(All()), EventOf(old(Now()), m))
    {
      hide Good, Later, CanMove, EventOf, Concerns;
      ghost var before := Now();
      MoveIsGood(before, m);
      MoveIsLater(start, before, m);
      log := log + [EventOf(before, m)];
    }

    // ---- Registration ----

    method SetSender(present: bool)
      modifies this`senderPresent
      ensures senderPresent == present
    {
      senderPresent := present;
    }

    /** A new handler for a known method keeps the method's post-send callback. */
    method Register(name: string)
      modifies this`requestHandlers
      ensures var kept := name in old(requestHandlers) && old(requestHandlers)[name];
              requestHandlers == old(requestHandlers)[name := kept]
    {
      if name !in requestHandlers {
        requestHandlers := requestHandlers[name := false];
      }
    }

    method RegisterNotification(name: string)
      modifies this`notificationHandlers
      ensures notificationHandlers == old(notificationHandlers) + {name}
    {
      notificationHandlers := notificationHandlers + {name};
    }

    /** Only the handle that Register returned can be used for this. */
    method OnPostSend(name: string, present: bool)
      modifies this`requestHandlers
      ensures requestHandlers ==
              if name in old(requestHandlers) then old(requestHandlers)[name := present] else old(requestHandlers)
    {
      if name in requestHandlers {
        requestHandlers := requestHandlers[name := present];
      }
    }

    // ---- Foreign code ----

    /** Runs foreign code: whatever it calls on this session happens now, one call after the other. */
    method Run(f: Foreign)
      requires Valid()
      modifies this
      ensures Valid() && Later(old(Now()), Now())
      ensures Runs(codec, old(All()), f, All())
      decreases f, 0
    {
      hide Good, Later, Runs, Does;
      LaterItself(Now());
      ghost var start, stages := All(), [All()];
      var i := 0;
      while i < |f.calls|
        invariant i <= |f.calls| && Valid() && Later(old(Now()), Now())
        invariant |stages| == i + 1 && stages[0] == start && stages[i] == All()
        invariant forall k :: 0 <= k < i ==> Does(codec, stages[k], f.calls[k], stages[k + 1])
      {
        ghost var before := Now();
        Perform(f.calls[i]);
        LaterIsTransitive(old(Now()), before, Now());
        stages := stages + [All()];
        i := i + 1;
      }
      RunsThrough(codec, f, stages);
    }

    method Perform(c: Call)
      requires Valid()
      modifies this
      ensures Valid() && Later(old(Now()), Now())
      ensures Does(codec, old(All()), c, All())
      decreases c, 3
    {
      hide Good, Later, Sends, Receives;
      LaterItself(Now());
      match c
      case SetSender(present) => SetSender(present);
      case Register(name) => Register(name);
      case RegisterNotification(name) => RegisterNotification(name);
      case OnPostSend(name, present) => OnPostSend(name, present);
      case SendRequest(kind, params, sending) => var _ := SendRequest(kind, params, sending);
      case SendNotification(name, hasParams, params, sending) =>
        var _ := SendNotification(name, hasParams, params, sending);
      case Receive(message, handling, sending, afterwards) =>
        var _ := Receive(message, handling, sending, afterwards);
    }

    // ---- Sending ----

    method SendJson(message: Json, sending: Foreign) returns (r: Outcome)
      requires Valid()
      modifies this
      ensures Valid() && Later(old(Now()), Now())
      ensures Sends(codec, old(All()), message, sending, All())
      ensures r.Pass? <==> old(senderPresent) && sending.verdict.Accept?
      decreases sending, 1
    {
      hide Good, Later, Runs;
      LaterItself(Now());
      if !senderPresent {
        return Fail("no sender set");
      }
      ghost var start := Now();
      Record(start, Handing(message));
      ghost var handed := Now();
      Run(sending);
      LaterIsTransitive(start, handed, Now());
      return if sending.verdict.Accept? then Pass else Fail("not sent");
    }

    /** Registers the response handler of request id, with a promise of its own. Registering
        never replaces a handler. */
    method Await(id: int, kind: RequestKind, ghost start: State)
      requires Good(start) && Now() == Skipped(start) && id == start.nextId
      modifies this
      ensures Valid() && Later(start, Now()) && All() == old(All()).(now := Posted(start, kind))
    {
      hide Good, Later;
      FreshId(start);
      promises := promises[id := None];
      if id !in responseHandlers {
        responseHandlers := responseHandlers[id := kind];
      }
      log := log + [Sending(id, id in responseHandlers)];
      MoveIsGood(start, Posting(kind));
      LaterItself(start);
      MoveIsLater(start, start, Posting(kind));
    }

    /** Sends a request; on success its id stands for the future that is returned. */
    method SendRequest(kind: RequestKind, params: Option<Json>, sending: Foreign) returns (r: Result<int>)
      requires Valid()
      modifies this
      ensures Valid() && Later(old(Now()), Now())
      ensures Does(codec, old(All()), Call.SendRequest(kind, params, sending), All())
      ensures old(nextId) < nextId
      ensures kind.hasParams && params.None? ==> r.Failure? && Now() == Skipped(old(Now()))
      ensures !(kind.hasParams && params.None?) ==>
                && Later(Posted(old(Now()), kind), Now())
                && r == (if old(senderPresent) && sending.verdict.Accept? then Success(old(nextId))
                         else Failure("not sent"))
      decreases Call.SendRequest(kind, params, sending), 0
    {
      hide Good, Later, Sends;
      var id := nextId;
      ghost var start := Now();
      nextId := nextId + 1;
      log := log + [Issued(id)];
      MoveIsGood(start, Skipping);
      LaterItself(start);
      MoveIsLater(start, start, Skipping);
      if kind.hasParams && params.None? {
        return Failure("not encoded");
      }
      Await(id, kind, start);
      ghost var posted := Now();
      var sent := SendJson(RequestMessage(id, kind, Given(params)), sending);
      LaterIsTransitive(start, posted, Now());
      LaterIdsAreLarger(posted, Now());
      return if sent.Pass? then Success(id) else Failure("not sent");
    }

    method SendNotification(name: string, hasParams: bool, params: Option<Json>, sending: Foreign) returns (r: Outcome)
      requires Valid()
      modifies this
      ensures Valid() && Later(old(Now()), Now())
      ensures Does(codec, old(All()), Call.SendNotification(name, hasParams, params, sending), All())
      ensures r.Pass? <==> !(hasParams && params.None?) && old(senderPresent) && sending.verdict.Accept?
      decreases Call.SendNotification(name, hasParams, params, sending), 0
    {
      hide Good, Later, Sends;
      LaterItself(Now());
      if hasParams && params.None? {
        return Fail("not encoded");
      }
      r := SendJson(NotificationMessage(name, hasParams, Given(params)), sending);
    }

    // ---- Receiving ----

    /** Whether a message gets as far as a handler. */
    ghost predicate HasHandler(message: Option<Json>) reads this {
      match Classify(codec.accessors, message)
      case Malformed => false
      case Response(id) => id in responseHandlers
      case Request(_, name) => name in requestHandlers
      case Notification(name) => name in notificationHandlers
    }

    method ReceiveResponse(id: int, response: Json) returns (r: Outcome)
      requires Valid()
      modifies this
      ensures Valid() && Later(old(Now()), Now())
      ensures id !in old(responseHandlers) ==> r.Fail? && All() == old(All())
      ensures id in old(responseHandlers) ==>
                var settled := Settle(codec, old(responseHandlers)[id], response);
                All() == old(All()).(now := Settled(old(Now()), id, settled)) && (r.Pass? <==> settled.Success?)
    {
      hide Later, GoodLog, Follows;
      LaterItself(Now());
      if id !in responseHandlers {
        return Fail("received response for unknown request");
      }
      ghost var start := Now();
      var kind := responseHandlers[id];
      responseHandlers := responseHandlers - {id};
      log := log + [Running(id, id in responseHandlers)];
      var settled := Settle(codec, kind, response);
      MoveIsGood(start, Settling(id, settled));
      LaterItself(start);
      MoveIsLater(start, start, Settling(id, settled));
      match settled {
        case Failure(reason) => r := Fail(reason);
        case Success(s) =>
          // Setting a promise twice would throw.
          assert promises[id].None?;
          promises := promises[id := Some(s)];
          r := Pass;
      }
    }

    /** Gives a notification to its handler. */
    method ReceiveNotification(message: Json, handling: Foreign) returns (r: Outcome)
      requires Valid()
      modifies this
      ensures Valid() && Later(old(Now()), Now())
      ensures Runs(codec, Noted(old(All()), Noticed(message)), handling, All())
      ensures r.Pass? <==> handling.verdict.Accept?
      decreases handling, 1
    {
      hide Good, Later, Runs;
      ghost var start := Now();
      LaterItself(start);
      Record(start, Noticing(message));
      ghost var noticed := Now();
      Run(handling);
      LaterIsTransitive(start, noticed, Now());
      return if handling.verdict.Accept? then Pass else Fail("notification handler failed");
    }

    /** Dispatches a message. `handling` is the request or notification handler, `sending` the
        sender of a reply, `afterwards` the post-send callback. */
    method Receive(message: Option<Json>, handling: Foreign, sending: Foreign, afterwards: Foreign) returns (r: Outcome)
      requires Valid()
      modifies this
      ensures Valid() && Later(old(Now()), Now())
      ensures Receives(codec, old(All()), message, handling, sending, afterwards, All())
      ensures !old(HasHandler(message)) ==> r.Fail? && All() == old(All())
      ensures old(HasHandler(message)) ==>
                match Classify(codec.accessors, message)
                case Malformed => true
                case Response(id) =>
                  var settled := Settle(codec, old(responseHandlers)[id], message.value);
                  Now() == Settled(old(Now()), id, settled) && (r.Pass? <==> settled.Success?)
                case Request(id, name) =>
                  && Answered(log, |old(log)|, id, message.value, handling.verdict, r)
                  && (handling.calls == sending.calls == [] ==>
                       && (r.Pass? <==> handling.verdict.Reply? && old(senderPresent) && sending.verdict.Accept?)
                       && (r.Pass? ==> (|Trail(log, |old(log)|)| == 4 <==> CallsBack(old(requestHandlers), name))))
                case Notification(_) => r.Pass? <==> handling.verdict.Accept?
      decreases Call.Receive(message, handling, sending, afterwards), 2
    {
      hide Good, Later, Trail, Answered, Runs, Replies;
      LaterItself(Now());
      match Classify(codec.accessors, message)
      case Malformed => r := Fail("not a message");
      case Response(id) => r := ReceiveResponse(id, message.value);
      case Request(id, name) =>
        if name !in requestHandlers {
          return Fail("no handler registered for request method '" + name + "'");
        }
        r := ReceiveRequest(message.value, id, name, handling, sending, afterwards);
      case Notification(name) =>
        if name !in notificationHandlers {
          return Fail("no handler registered for request method '" + name + "'");
        }
        r := ReceiveNotification(message.value, handling);
    }

    method ReceiveRequest(message: Json, id: int, name: string, handling: Foreign, sending: Foreign,
                          afterwards: Foreign) returns (r: Outcome)
      requires Valid() && name in requestHandlers && Classify(codec.accessors, Some(message)) == Request(id, name)
      modifies this
      ensures Valid() && Later(old(Now()), Now())
      ensures Receives(codec, old(All()), Some(message), handling, sending, afterwards, All())
      ensures Answered(log, |old(log)|, id, message, handling.verdict, r)
      ensures handling.calls == sending.calls == [] ==>
                && (r.Pass? <==> handling.verdict.Reply? && old(senderPresent) && sending.verdict.Accept?)
                && (r.Pass? ==> (|Trail(log, |old(log)|)| == 4 <==> CallsBack(old(requestHandlers), name)))
      decreases Call.Receive(Some(message), handling, sending, afterwards), 1
    {
      hide Good, Later, Trail, Runs, Replies, Receives;
      ghost var start, token, all := Now(), |log|, All();
      Handle(id, message, handling);
      ghost var handled := All();
      if !handling.verdict.Reply? {
        ReceivesRequest(codec, all, message, id, name, handling, handled, sending, afterwards, All());
        return Fail("request handler failed");
      }
      r := SendReply(start, token, id, name, message, handling, sending, afterwards);
      ReceivesRequest(codec, all, message, id, name, handling, handled, sending, afterwards, All());
    }

    /** The request accepted at `token` is being handled, in a stretch that began at `start`. */
    ghost predicate During(start: State, token: nat) reads this {
      Later(start, Now()) && |start.log| <= token < |log|
    }

    /** Accepts a request, and gives it to its handler. */
    method Handle(id: int, message: Json, handling: Foreign)
      requires Valid()
      modifies this
      ensures Valid() && During(old(Now()), |old(log)|)
      ensures Runs(codec, Noted(old(All()), Asked(|old(log)|, id, message)), handling, All())
      ensures Trail(log, |old(log)|) == [Asked(|old(log)|, id, message)]
      ensures handling.calls == [] ==> All() == Noted(old(All()), Asked(|old(log)|, id, message))
      decreases handling, 2
    {
      hide Good, Later, Trail, Runs;
      ghost var start, token := Now(), |log|;
      LaterItself(start);
      NothingYet(start);
      TrailGrows(log, Asked(token, id, message), token);
      Record(start, Accepting(id, message));
      RunDuring(handling, start, token);
    }

    /** Sends the answer to the request accepted at `token`, then runs the post-send callback
        that is set by then, if any. */
    method SendReply(ghost start: State, ghost token: nat, id: int, name: string, message: Json, handling: Foreign,
                     sending: Foreign, afterwards: Foreign) returns (r: Outcome)
      requires Valid() && During(start, token) && handling.verdict.Reply?
      requires Trail(log, token) == [Asked(token, id, message)]
      modifies this
      ensures Valid() && During(start, token)
      ensures Replies(codec, old(All()), token, id, name, Some(message), handling, sending, afterwards, All())
      ensures Answered(log, token, id, message, handling.verdict, r)
      ensures r.Pass? <==> old(senderPresent) && sending.verdict.Accept?
      ensures r.Pass? && sending.calls == [] ==> (|Trail(log, token)| == 4 <==> CallsBack(old(requestHandlers), name))
      decreases Call.Receive(Some(message), handling, sending, afterwards), 0
    {
      hide Good, Later, Trail, Sends, CallsAfter, Replies;
      ghost var all := All();
      var reply := ReplyMessage(id, handling.verdict.answer);
      TrailGrows(log, Replying(token, reply), token);
      Record(start, Answering(token, handling.verdict.answer));
      r := SendDuring(reply, sending, start, token);
      ghost var sent := All();
      if r.Pass? {
        CallBack(start, token, name, afterwards);
      }
      RepliesIf(codec, all, token, id, name, Some(message), handling, sending, sent, afterwards, All());
    }

    /** Runs the post-send callback of a request whose answer was just delivered, if one is set. */
    method CallBack(ghost start: State, ghost token: nat, name: string, afterwards: Foreign)
      requires Valid() && During(start, token) && |Trail(log, token)| == 2
      modifies this
      ensures Valid() && During(start, token)
      ensures CallsAfter(codec, old(All()), token, name, afterwards, All())
      ensures var callback := CallsBack(old(requestHandlers), name);
              Trail(log, token) ==
              old(Trail(log, token)) + [Delivered(token, callback)] + if callback then [PostSent(token)] else []
      decreases afterwards, 2
    {
      hide Good, Later, Trail, Runs;
      var callback := name in requestHandlers && requestHandlers[name];
      TrailGrows(log, Delivered(token, callback), token);
      Record(start, Delivering(token, callback));
      if callback {
        TrailGrows(log, PostSent(token), token);
        Record(start, CallingBack(token));
        RunDuring(afterwards, start, token);
      }
    }

    method RunDuring(f: Foreign, ghost start: State, ghost token: nat)
      requires Valid() && During(start, token)
      modifies this
      ensures Valid() && During(start, token) && Trail(log, token) == old(Trail(log, token))
      ensures Runs(codec, old(All()), f, All())
      ensures f.calls == [] ==> All() == old(All())
      decreases f, 1
    {
      hide Runs;
      ghost var before, all := Now(), All();
      Run(f);
      Undisturbed(start, before, Now(), token);
      QuietRun(codec, all, f, All());
    }

    method SendDuring(message: Json, sending: Foreign, ghost start: State, ghost token: nat) returns (r: Outcome)
      requires Valid() && During(start, token)
      modifies this
      ensures Valid() && During(start, token) && Trail(log, token) == old(Trail(log, token))
      ensures Sends(codec, old(All()), message, sending, All())
      ensures r.Pass? <==> old(senderPresent) && sending.verdict.Accept?
      ensures sending.calls == [] ==> requestHandlers == old(requestHandlers)
      decreases sending, 2
    {
      hide Sends;
      ghost var before, all := Now(), All();
      r := SendJson(message, sending);
      Undisturbed(start, before, Now(), token);
      QuietSend(codec, all, message, sending, All());
    }
  }
}
