/** Two sessions that send each other messages over reliable first-in-first-out queues. Both sides ask,
    notify, take messages and answer at any time and in any interleaving: while a request is handled,
    and while a sender runs, both sessions may go on in every way. */
module Network {
  import opened Results
  import opened Json
  import opened Messages
  import opened Sessions

  /** What a notification says. */
  datatype Notice = Notice(name: string, params: Option<Json>)

  /** One side: its session, the messages it has sent that the peer has not taken, and a record of what
      it did. `kinds`, `params`, `sent`, `atSender` and `failed` concern its own requests: all that
      reached the sender, with what they asked and as messages, those the sender has not dealt with yet,
      and those it refused. The following concern the peer's requests: those accepted, each with its
      token, those answered, those whose reply the sender has not dealt with yet, and those that will get
      no reply. The last are the notifications it sent and those that reached it. */
  datatype Side = Side(
    session: State,
    out: seq<Json>,
    kinds: map<int, RequestKind>,
    params: map<int, Json>,
    sent: map<int, Json>,
    atSender: set<int>,
    failed: set<int>,
    handled: map<int, Json>,
    tokens: map<int, nat>,
    answered: map<int, Answer>,
    replying: set<int>,
    dropped: set<int>,
    told: seq<Notice>,
    heard: seq<Notice>)

  /** What a side does. A request is taken, and later its handler ends with an answer or without one; a
      request or a notification is discarded if no handler is registered for its method; a request or a
      reply is handed to the sender, and later the sender sends or refuses it. */
  datatype Action =
    | AskUnencoded
    | Ask(kind: RequestKind, params: Json)
    | Hand(id: int, delivered: bool)
    | Tell(name: string, hasParams: bool, params: Json)
    | Take(registered: bool)
    | Drop(id: int)
    | Respond(id: int, answer: Answer)
    | HandReply(id: int, delivered: bool, callback: bool)
    | PostSend(id: int)

  datatype Net = Net(left: Side, right: Side)

  datatype Step = Step(onLeft: bool, action: Action)

  ghost function FreshSide(): Side {
    Side(INITIAL, [], map[], map[], map[], {}, {}, map[], map[], map[], {}, {}, [], [])
  }

  /** The request with this id was accepted, and its handler has not ended. */
  predicate IsOpen(x: Side, id: int) {
    id in x.handled && id !in x.answered && id !in x.dropped
  }

  /** Side x acts, if it can. The id counter is used up to the last 64-bit value. */
  ghost predicate Enabled(x: Side, y: Side, action: Action) {
    match action
    case AskUnencoded => x.session.nextId <= I64_MAX
    case Ask(_, _) => x.session.nextId <= I64_MAX
    case Hand(id, _) => id in x.atSender && id in x.sent
    case Tell(_, _, _) => true
    case Take(_) => y.out != []
    case Drop(id) => IsOpen(x, id)
    case Respond(id, answer) => IsOpen(x, id) && id in x.tokens && CanMove(x.session, Answering(x.tokens[id], answer))
    case HandReply(id, delivered, callback) =>
      && id in x.replying && id in x.answered && id in x.tokens
      && CanMove(x.session, Delivering(x.tokens[id], callback))
    case PostSend(id) => id in x.tokens && CanMove(x.session, CallingBack(x.tokens[id]))
  }

  /** The session when its sender is given a message. */
  ghost function AtSender(s: State, message: Json): State { s.(log := s.log + [Handed(message)]) }

  ghost function Asking(x: Side, kind: RequestKind, params: Json): Side {
    var id := x.session.nextId;
    var message := RequestMessage(id, kind, params);
    x.(session := AtSender(Posted(x.session, kind), message),
       kinds := x.kinds[id := kind],
       params := x.params[id := params],
       sent := x.sent[id := message],
       atSender := x.atSender + {id})
  }

  ghost function TakingRequest(x: Side, id: int, message: Json): Side {
    x.(session := After(x.session, Move.Accepting(id, message)),
       handled := x.handled[id := message],
       tokens := x.tokens[id := |x.session.log|])
  }

  ghost function TakingReply(codec: Codec, x: Side, id: int, message: Json): Side
    requires id in x.session.pending
  {
    x.(session := Settled(x.session, id, Settle(codec, x.session.pending[id], message)))
  }

  ghost function TakingNotice(x: Side, name: string, message: Json, registered: bool): Side {
    x.(session := if registered then After(x.session, Noticing(message)) else x.session,
       heard := x.heard + [Notice(name, ParamsOf(message))])
  }

  ghost function Taking(codec: Codec, x: Side, message: Json, registered: bool): Side {
    match Classify(codec.accessors, Some(message))
    case Malformed => x
    case Notification(name) => TakingNotice(x, name, message, registered)
    case Response(id) => if id !in x.session.pending then x else TakingReply(codec, x, id, message)
    case Request(id, _) => if registered then TakingRequest(x, id, message) else x.(dropped := x.dropped + {id})
  }

  ghost function Telling(x: Side, name: string, hasParams: bool, params: Json): Side {
    var message := NotificationMessage(name, hasParams, params);
    x.(session := AtSender(x.session, message), out := x.out + [message],
       told := x.told + [Notice(name, Carried(hasParams, params))])
  }

  ghost function AnsweringRequest(x: Side, id: int, answer: Answer): Side
    requires id in x.tokens && CanMove(x.session, Answering(x.tokens[id], answer))
  {
    x.(session := After(x.session, Answering(x.tokens[id], answer)),
       answered := x.answered[id := answer], replying := x.replying + {id})
  }

  /** What x becomes. */
  ghost function Acting(codec: Codec, x: Side, y: Side, action: Action): Side
    requires Enabled(x, y, action)
  {
    match action
    case AskUnencoded => x.(session := After(x.session, Skipping))
    case Ask(kind, params) => Asking(x, kind, params)
    case Hand(id, delivered) =>
      if delivered then x.(atSender := x.atSender - {id}, out := x.out + [x.sent[id]])
      else x.(atSender := x.atSender - {id}, failed := x.failed + {id})
    case Tell(name, hasParams, params) => Telling(x, name, hasParams, params)
    case Take(registered) => Taking(codec, x, y.out[0], registered)
    case Drop(id) => x.(dropped := x.dropped + {id})
    case Respond(id, answer) =>
      var answering := AnsweringRequest(x, id, answer);
      answering.(session := AtSender(answering.session, ReplyMessage(id, answer)))
    case HandReply(id, delivered, callback) =>
      if delivered then
        x.(session := After(x.session, Delivering(x.tokens[id], callback)),
           replying := x.replying - {id}, out := x.out + [ReplyMessage(id, x.answered[id])])
      else x.(replying := x.replying - {id}, dropped := x.dropped + {id})
    case PostSend(id) => x.(session := After(x.session, CallingBack(x.tokens[id])))
  }

  /** What y, the other side, becomes. */
  function Meanwhile(y: Side, action: Action): Side {
    if action.Take? && y.out != [] then y.(out := y.out[1..]) else y
  }

  ghost function Do(codec: Codec, n: Net, s: Step): Net {
    if s.onLeft then
      if Enabled(n.left, n.right, s.action)
      then Net(Acting(codec, n.left, n.right, s.action), Meanwhile(n.right, s.action)) else n
    else
      if Enabled(n.right, n.left, s.action)
      then Net(Meanwhile(n.left, s.action), Acting(codec, n.right, n.left, s.action)) else n
  }

  ghost function Run(codec: Codec, steps: seq<Step>): Net {
    if steps == [] then Net(FreshSide(), FreshSide())
    else Do(codec, Run(codec, steps[..|steps| - 1]), steps[|steps| - 1])
  }

  // ---- Where a request is ----

  /** The id a message asks under, if it is a request. */
  function AskedId(a: Accessors, m: Json): Option<int> {
    var c := Classify(a, Some(m));
    if c.Request? then Some(c.id) else None
  }

  /** The id a message answers, if it is a response. */
  function RepliedId(a: Accessors, m: Json): Option<int> {
    var c := Classify(a, Some(m));
    if c.Response? then Some(c.id) else None
  }

  function One(b: bool): nat { if b then 1 else 0 }

  /** How many requests with this id are in a queue. */
  function Requests(a: Accessors, q: seq<Json>, id: int): nat {
    if q == [] then 0 else One(AskedId(a, q[0]) == Some(id)) + Requests(a, q[1..], id)
  }

  function Responses(a: Accessors, q: seq<Json>, id: int): nat {
    if q == [] then 0 else One(RepliedId(a, q[0]) == Some(id)) + Responses(a, q[1..], id)
  }

  lemma {:induction false} CountsAppend(a: Accessors, q: seq<Json>, m: Json, id: int)
    ensures Requests(a, q + [m], id) == Requests(a, q, id) + One(AskedId(a, m) == Some(id))
    ensures Responses(a, q + [m], id) == Responses(a, q, id) + One(RepliedId(a, m) == Some(id))
  {
    hide AskedId, RepliedId;
    if q == [] {
      assert [m][1..] == [];
      assert q + [m] == [m];
    } else {
      assert (q + [m])[1..] == q[1..] + [m];
      CountsAppend(a, q[1..], m, id);
    }
  }

  lemma {:induction false} CountsMember(a: Accessors, q: seq<Json>, m: Json, id: int)
    requires m in q
    ensures AskedId(a, m) == Some(id) ==> Requests(a, q, id) > 0
    ensures RepliedId(a, m) == Some(id) ==> Responses(a, q, id) > 0
  {
    hide AskedId, RepliedId;
    if m == q[0] {
    } else {
      CountsMember(a, q[1..], m, id);
    }
  }

  /** Side x asked, and the answer has been taken. */
  predicate IsSettled(x: Side, id: int) { id in x.sent && id !in x.session.pending }

  /** In how many places request id of x is: with its sender, on its way, being handled, its reply with
      the peer's sender, its reply on its way, left without a reply, refused by the sender, settled. */
  ghost function Places(a: Accessors, x: Side, y: Side, id: int): nat {
    One(id in x.atSender) + Requests(a, x.out, id) + One(IsOpen(y, id)) + One(id in y.replying) +
    Responses(a, y.out, id) + One(id in y.dropped) + One(id in x.failed) + One(IsSettled(x, id))
  }

  // ---- The invariant, for x as asking side and y as answering side ----

  ghost predicate AskerOk(a: Accessors, x: Side) {
    && 1 <= x.session.nextId <= I64_MAX + 1
    && x.sent.Keys == x.kinds.Keys == x.session.promises.Keys
    && (forall id :: id in x.sent ==>
         1 <= id < x.session.nextId && AskedId(a, x.sent[id]) == Some(id) && RepliedId(a, x.sent[id]) == None)
    && (forall id :: id in x.session.pending ==>
         id in x.sent && x.session.pending[id] == x.kinds[id] && x.session.promises[id] == None)
    && (forall m :: m in x.out && AskedId(a, m).Some? ==>
         AskedId(a, m).value in x.sent && m == x.sent[AskedId(a, m).value])
  }

  ghost predicate AnswererOk(a: Accessors, x: Side, y: Side) {
    && (forall id :: id in y.handled ==>
         id in x.sent && y.handled[id] == x.sent[id] && Requests(a, x.out, id) == 0 && id !in x.atSender)
    && (forall id :: id in y.answered ==> id in y.handled)
    && (forall id :: id in y.replying ==> id in y.answered)
    && (forall m :: m in y.out && RepliedId(a, m).Some? ==>
         var id := RepliedId(a, m).value; id in y.answered && m == ReplyMessage(id, y.answered[id]))
  }

  ghost predicate PlaceOk(a: Accessors, x: Side, y: Side, id: int) {
    Places(a, x, y, id) == One(id in x.sent)
  }

  function SettledWith(settled: Result<Settlement>): Option<Settlement> {
    match settled
    case Success(s) => Some(s)
    case Failure(_) => None
  }

  /** A settled request was answered, and its promise is what its own answer settles it with. */
  ghost predicate PromiseOk(codec: Codec, x: Side, y: Side, id: int) {
    IsSettled(x, id) ==>
      && id in x.kinds && id in x.session.promises && id in y.answered
      && x.session.promises[id] == SettledWith(Settle(codec, x.kinds[id], ReplyMessage(id, y.answered[id])))
  }

  ghost predicate Half(codec: Codec, x: Side, y: Side) {
    && AskerOk(codec.accessors, x) && AnswererOk(codec.accessors, x, y)
    && (forall id :: PlaceOk(codec.accessors, x, y, id))
    && (forall id :: PromiseOk(codec, x, y, id))
  }

  // ---- What leaves a half alone ----

  /** As asking side, x2 is what x is. */
  ghost predicate SameAsker(x: Side, x2: Side) {
    && x.session.(log := []) == x2.session.(log := []) && x.out == x2.out && x.kinds == x2.kinds
    && x.sent == x2.sent && x.atSender == x2.atSender && x.failed == x2.failed
  }

  /** As answering side, y2 is what y is. */
  ghost predicate SameAnswerer(y: Side, y2: Side) {
    && y.out == y2.out && y.handled == y2.handled && y.answered == y2.answered
    && y.replying == y2.replying && y.dropped == y2.dropped
  }

  lemma HalfKept(codec: Codec, x: Side, y: Side, x2: Side, y2: Side)
    requires Half(codec, x, y) && SameAsker(x, x2) && SameAnswerer(y, y2)
    ensures Half(codec, x2, y2)
  {
    hide Requests, Responses, AskedId, RepliedId;
    forall id ensures PlaceOk(codec.accessors, x2, y2, id) {
      assert PlaceOk(codec.accessors, x, y, id);
    }
    forall id ensures PromiseOk(codec, x2, y2, id) {
      assert PromiseOk(codec, x, y, id);
    }
  }

  /** An id that was not used is nowhere. */
  lemma Nowhere(codec: Codec, x: Side, y: Side, id: int)
    requires Half(codec, x, y) && id !in x.sent
    ensures id !in x.atSender && id !in x.failed && id !in y.handled && id !in y.answered && id !in y.replying
    ensures id !in y.dropped && Requests(codec.accessors, x.out, id) == 0 && Responses(codec.accessors, y.out, id) == 0
  {
    hide Requests, Responses;
    assert PlaceOk(codec.accessors, x, y, id);
  }

  // ---- The asking side moves ----

  lemma SkipKeeps(codec: Codec, x: Side, y: Side)
    requires Half(codec, x, y) && x.session.nextId <= I64_MAX
    ensures Half(codec, x.(session := Skipped(x.session)), y)
  {
    hide Requests, Responses, AskedId, RepliedId, Settle, ReplyMessage;
    var x' := x.(session := Skipped(x.session));
    forall id ensures PlaceOk(codec.accessors, x', y, id) {
      assert PlaceOk(codec.accessors, x, y, id);
    }
    forall id ensures PromiseOk(codec, x', y, id) {
      assert PromiseOk(codec, x, y, id);
    }
  }

  lemma RequestAsks(a: Accessors, id: int, kind: RequestKind, params: Json)
    requires a.Lawful() && IsI64(id)
    ensures AskedId(a, RequestMessage(id, kind, params)) == Some(id)
    ensures RepliedId(a, RequestMessage(id, kind, params)) == None
  {
    BuiltIsClassified(a, id, kind, "", false, params, ResultAnswer(Null));
  }

  lemma AskKeepsAsker(a: Accessors, x: Side, kind: RequestKind, params: Json)
    requires a.Lawful() && AskerOk(a, x) && x.session.nextId <= I64_MAX
    ensures x.session.nextId !in x.sent && AskerOk(a, Asking(x, kind, params))
  {
    hide AskedId, RepliedId, RequestMessage, Accessors.Lawful;
    RequestAsks(a, x.session.nextId, kind, params);
  }

  lemma AskKeepsAnswerer(a: Accessors, x: Side, y: Side, kind: RequestKind, params: Json)
    requires AnswererOk(a, x, y) && x.session.nextId !in x.sent
    ensures AnswererOk(a, Asking(x, kind, params), y)
  {
    hide Requests, AskedId, RepliedId, RequestMessage, ReplyMessage;
  }

  lemma AskKeepsTables(a: Accessors, x: Side, y: Side, kind: RequestKind, params: Json)
    requires a.Lawful() && AskerOk(a, x) && AnswererOk(a, x, y) && x.session.nextId <= I64_MAX
    ensures x.session.nextId !in x.sent
    ensures AskerOk(a, Asking(x, kind, params)) && AnswererOk(a, Asking(x, kind, params), y)
  {
    AskKeepsAsker(a, x, kind, params);
    AskKeepsAnswerer(a, x, y, kind, params);
  }

  lemma AskKeeps(codec: Codec, x: Side, y: Side, kind: RequestKind, params: Json)
    requires codec.accessors.Lawful() && Half(codec, x, y) && x.session.nextId <= I64_MAX
    ensures Half(codec, Asking(x, kind, params), y)
  {
    hide Requests, Responses, AskedId, RepliedId, RequestMessage, Settle, ReplyMessage, AskerOk, AnswererOk;
    var id0, x' := x.session.nextId, Asking(x, kind, params);
    AskKeepsTables(codec.accessors, x, y, kind, params);
    Nowhere(codec, x, y, id0);
    forall id ensures PlaceOk(codec.accessors, x', y, id) {
      assert PlaceOk(codec.accessors, x, y, id);
    }
    forall id ensures PromiseOk(codec, x', y, id) {
      assert PromiseOk(codec, x, y, id);
    }
  }

  lemma ReplyReplies(a: Accessors, id: int, answer: Answer)
    requires a.Lawful() && IsI64(id)
    ensures AskedId(a, ReplyMessage(id, answer)) == None
    ensures RepliedId(a, ReplyMessage(id, answer)) == Some(id)
  {
    BuiltIsClassified(a, id, RequestKind("", false, false), "", false, Null, answer);
  }

  lemma NotificationDoesNeither(a: Accessors, name: string, hasParams: bool, params: Json)
    requires a.Lawful()
    ensures AskedId(a, NotificationMessage(name, hasParams, params)) == None
    ensures RepliedId(a, NotificationMessage(name, hasParams, params)) == None
  {
    BuiltIsClassified(a, 0, RequestKind("", false, false), name, hasParams, params, ResultAnswer(Null));
  }

  lemma HandKeepsAsker(codec: Codec, x: Side, y: Side, id0: int, delivered: bool)
    requires AskerOk(codec.accessors, x) && id0 in x.atSender && id0 in x.sent
    ensures AskedId(codec.accessors, x.sent[id0]) == Some(id0)
    ensures AskerOk(codec.accessors, Acting(codec, x, y, Hand(id0, delivered)))
  {
    hide AskedId, RepliedId, ReplyMessage;
  }

  lemma HandKeepsAnswerer(codec: Codec, x: Side, y: Side, id0: int, delivered: bool)
    requires AnswererOk(codec.accessors, x, y) && id0 in x.atSender && id0 in x.sent
    requires AskedId(codec.accessors, x.sent[id0]) == Some(id0)
    ensures AnswererOk(codec.accessors, Acting(codec, x, y, Hand(id0, delivered)), y)
  {
    hide Requests, AskedId, RepliedId, ReplyMessage;
    var a, m := codec.accessors, x.sent[id0];
    forall id ensures Requests(a, x.out + [m], id) == Requests(a, x.out, id) + One(id == id0) {
      CountsAppend(a, x.out, m, id);
    }
  }

  /** The sender sends a request or refuses it. */
  lemma HandKeeps(codec: Codec, x: Side, y: Side, id0: int, delivered: bool)
    requires Half(codec, x, y) && id0 in x.atSender && id0 in x.sent
    ensures Half(codec, Acting(codec, x, y, Hand(id0, delivered)), y)
  {
    hide Requests, Responses, AskedId, RepliedId, Settle, ReplyMessage, AskerOk, AnswererOk;
    var a, x' := codec.accessors, Acting(codec, x, y, Hand(id0, delivered));
    assert PlaceOk(a, x, y, id0);
    HandKeepsAsker(codec, x, y, id0, delivered);
    HandKeepsAnswerer(codec, x, y, id0, delivered);
    forall id ensures PlaceOk(a, x', y, id) {
      assert PlaceOk(a, x, y, id);
      CountsAppend(a, x.out, x.sent[id0], id);
    }
    forall id ensures PromiseOk(codec, x', y, id) {
      assert PromiseOk(codec, x, y, id);
    }
  }

  /** The asking side sends something that is no request. */
  lemma AskerSendsOther(codec: Codec, x: Side, y: Side, m: Json)
    requires Half(codec, x, y) && AskedId(codec.accessors, m) == None
    ensures Half(codec, x.(out := x.out + [m]), y)
  {
    hide Requests, Responses, AskedId, RepliedId, Settle, ReplyMessage;
    var a, x' := codec.accessors, x.(out := x.out + [m]);
    forall id ensures PlaceOk(a, x', y, id) && Requests(a, x'.out, id) == Requests(a, x.out, id) {
      assert PlaceOk(a, x, y, id);
      CountsAppend(a, x.out, m, id);
    }
    forall id ensures PromiseOk(codec, x', y, id) {
      assert PromiseOk(codec, x, y, id);
    }
  }

  /** A message that is no request leaves the queue of the asking side. */
  lemma AskerHeadLeaves(codec: Codec, x: Side, y: Side)
    requires Half(codec, x, y) && x.out != [] && AskedId(codec.accessors, x.out[0]) == None
    ensures Half(codec, x.(out := x.out[1..]), y)
  {
    hide Responses, AskedId, RepliedId, Settle, ReplyMessage;
    var a, x' := codec.accessors, x.(out := x.out[1..]);
    forall id ensures PlaceOk(a, x', y, id) && Requests(a, x'.out, id) == Requests(a, x.out, id) {
      assert PlaceOk(a, x, y, id);
    }
    forall id ensures PromiseOk(codec, x', y, id) {
      assert PromiseOk(codec, x, y, id);
    }
  }

  // ---- The answering side moves ----

  /** The answering side sends something that is no response. */
  lemma AnswererSendsOther(codec: Codec, x: Side, y: Side, m: Json)
    requires Half(codec, x, y) && RepliedId(codec.accessors, m) == None
    ensures Half(codec, x, y.(out := y.out + [m]))
  {
    hide Requests, Responses, AskedId, RepliedId, Settle, ReplyMessage;
    var a, y' := codec.accessors, y.(out := y.out + [m]);
    forall id ensures PlaceOk(a, x, y', id) {
      assert PlaceOk(a, x, y, id);
      CountsAppend(a, y.out, m, id);
    }
    forall id ensures PromiseOk(codec, x, y', id) {
      assert PromiseOk(codec, x, y, id);
    }
  }

  /** A message that is no response leaves the queue of the answering side. */
  lemma AnswererHeadLeaves(codec: Codec, x: Side, y: Side)
    requires Half(codec, x, y) && y.out != [] && RepliedId(codec.accessors, y.out[0]) == None
    ensures Half(codec, x, y.(out := y.out[1..]))
  {
    hide Requests, AskedId, RepliedId, Settle, ReplyMessage;
    var a, y' := codec.accessors, y.(out := y.out[1..]);
    forall id ensures PlaceOk(a, x, y', id) {
      assert PlaceOk(a, x, y, id);
    }
    forall id ensures PromiseOk(codec, x, y', id) {
      assert PromiseOk(codec, x, y, id);
    }
  }

  /** A handler ends without an answer. */
  lemma DropKeeps(codec: Codec, x: Side, y: Side, id0: int)
    requires Half(codec, x, y) && IsOpen(y, id0)
    ensures Half(codec, x, y.(dropped := y.dropped + {id0}))
  {
    hide Requests, Responses, AskedId, RepliedId, Settle, ReplyMessage;
    var a, y' := codec.accessors, y.(dropped := y.dropped + {id0});
    forall id ensures PlaceOk(a, x, y', id) {
      assert PlaceOk(a, x, y, id);
    }
    forall id ensures PromiseOk(codec, x, y', id) {
      assert PromiseOk(codec, x, y, id);
    }
  }

  ghost function Responding(y: Side, id: int, answer: Answer): Side {
    y.(answered := y.answered[id := answer], replying := y.replying + {id})
  }

  /** A handler ends with an answer, which goes to the sender. */
  lemma RespondKeeps(codec: Codec, x: Side, y: Side, id0: int, answer: Answer)
    requires Half(codec, x, y) && IsOpen(y, id0)
    ensures Half(codec, x, Responding(y, id0, answer))
  {
    hide Requests, Responses, AskedId, RepliedId, Settle, ReplyMessage;
    var a, y' := codec.accessors, Responding(y, id0, answer);
    forall id ensures PlaceOk(a, x, y', id) {
      assert PlaceOk(a, x, y, id);
    }
    forall id ensures PromiseOk(codec, x, y', id) {
      assert PlaceOk(a, x, y, id);
      assert PromiseOk(codec, x, y, id);
    }
    forall m | m in y.out && RepliedId(a, m).Some? ensures RepliedId(a, m).value != id0 {
      assert PlaceOk(a, x, y, id0);
      CountsMember(a, y.out, m, id0);
    }
  }

  ghost function HandingReply(y: Side, id: int, delivered: bool): Side
    requires id in y.answered
  {
    if delivered then y.(replying := y.replying - {id}, out := y.out + [ReplyMessage(id, y.answered[id])])
    else y.(replying := y.replying - {id}, dropped := y.dropped + {id})
  }

  /** An answer that was given is to a request of the other side, and its reply is recognised as one. */
  lemma AnswerReplies(a: Accessors, x: Side, y: Side, id0: int)
    requires a.Lawful() && AskerOk(a, x) && AnswererOk(a, x, y) && id0 in y.answered
    ensures RepliedId(a, ReplyMessage(id0, y.answered[id0])) == Some(id0)
    ensures AskedId(a, ReplyMessage(id0, y.answered[id0])) == None
  {
    hide Requests, AskedId, RepliedId, ReplyMessage;
    assert id0 in x.sent;
    ReplyReplies(a, id0, y.answered[id0]);
  }

  lemma HandReplyKeepsAnswerer(a: Accessors, x: Side, y: Side, id0: int, delivered: bool)
    requires a.Lawful() && AskerOk(a, x) && AnswererOk(a, x, y) && id0 in y.replying && id0 in y.answered
    ensures AnswererOk(a, x, HandingReply(y, id0, delivered))
  {
    hide Requests, AskedId, RepliedId, ReplyMessage, AskerOk;
    AnswerReplies(a, x, y, id0);
  }

  /** The sender sends a reply or refuses it. */
  lemma HandReplyKeeps(codec: Codec, x: Side, y: Side, id0: int, delivered: bool)
    requires codec.accessors.Lawful() && Half(codec, x, y) && id0 in y.replying && id0 in y.answered
    ensures Half(codec, x, HandingReply(y, id0, delivered))
    ensures AskedId(codec.accessors, ReplyMessage(id0, y.answered[id0])) == None
  {
    hide Requests, Responses, AskedId, RepliedId, Settle, ReplyMessage, AskerOk, AnswererOk;
    var a, y' := codec.accessors, HandingReply(y, id0, delivered);
    var m := ReplyMessage(id0, y.answered[id0]);
    HandReplyKeepsAnswerer(a, x, y, id0, delivered);
    AnswerReplies(a, x, y, id0);
    assert PlaceOk(a, x, y, id0);
    forall id ensures PlaceOk(a, x, y', id) {
      assert PlaceOk(a, x, y, id);
      CountsAppend(a, y.out, m, id);
    }
    forall id ensures PromiseOk(codec, x, y', id) {
      assert PromiseOk(codec, x, y, id);
    }
  }

  // ---- A message arrives ----

  /** A reply finds its request pending, and settles it. */
  lemma ReplyFindsRequest(codec: Codec, x: Side, y: Side, id0: int)
    requires Half(codec, x, y) && y.out != [] && RepliedId(codec.accessors, y.out[0]) == Some(id0)
    ensures id0 in x.session.pending && id0 in x.kinds && id0 in y.answered && id0 in x.session.promises
    ensures x.session.pending[id0] == x.kinds[id0] && x.session.promises[id0] == None
    ensures y.out[0] == ReplyMessage(id0, y.answered[id0])
  {
    hide Requests, Responses, AskedId, RepliedId, Settle, ReplyMessage;
    assert y.out[0] in y.out;
    CountsMember(codec.accessors, y.out, y.out[0], id0);
    assert PlaceOk(codec.accessors, x, y, id0);
  }

  lemma ReplyKeepsTables(codec: Codec, x: Side, y: Side, id0: int)
    requires AskerOk(codec.accessors, x) && AnswererOk(codec.accessors, x, y) && y.out != []
    requires id0 in x.session.pending
    ensures AskerOk(codec.accessors, TakingReply(codec, x, id0, y.out[0]))
    ensures AnswererOk(codec.accessors, TakingReply(codec, x, id0, y.out[0]), y.(out := y.out[1..]))
  {
    hide Requests, AskedId, RepliedId, Settle, ReplyMessage;
  }

  lemma ReplyKeeps(codec: Codec, x: Side, y: Side, id0: int)
    requires Half(codec, x, y) && y.out != [] && RepliedId(codec.accessors, y.out[0]) == Some(id0)
    ensures id0 in x.session.pending
    ensures Half(codec, TakingReply(codec, x, id0, y.out[0]), y.(out := y.out[1..]))
  {
    hide Requests, AskedId, RepliedId, Settle, ReplyMessage, AskerOk, AnswererOk;
    ReplyFindsRequest(codec, x, y, id0);
    ReplyKeepsTables(codec, x, y, id0);
    var a, x', y' := codec.accessors, TakingReply(codec, x, id0, y.out[0]), y.(out := y.out[1..]);
    forall id ensures PlaceOk(a, x', y', id) {
      assert PlaceOk(a, x, y, id);
    }
    forall id ensures PromiseOk(codec, x', y', id) {
      assert PromiseOk(codec, x, y, id);
    }
  }

  ghost function Opening(y: Side, id: int, message: Json): Side {
    y.(handled := y.handled[id := message])
  }

  lemma OneLeaves(a: Accessors, q: seq<Json>, id: int)
    requires q != []
    ensures Requests(a, q, id) == Requests(a, q[1..], id) + One(AskedId(a, q[0]) == Some(id))
    ensures Responses(a, q, id) == Responses(a, q[1..], id) + One(RepliedId(a, q[0]) == Some(id))
  {
    hide AskedId, RepliedId;
  }

  lemma RequestIsNew(codec: Codec, x: Side, y: Side, id0: int)
    requires Half(codec, x, y) && x.out != [] && AskedId(codec.accessors, x.out[0]) == Some(id0)
    ensures id0 !in y.handled && id0 !in y.answered && id0 !in y.dropped && id0 !in x.atSender
    ensures id0 in x.sent && x.out[0] == x.sent[id0] && Requests(codec.accessors, x.out, id0) == 1
  {
    hide Responses, AskedId, RepliedId, Settle, ReplyMessage;
    assert x.out[0] in x.out;
    assert PlaceOk(codec.accessors, x, y, id0);
    OneLeaves(codec.accessors, x.out, id0);
  }

  lemma AcceptKeepsTables(a: Accessors, x: Side, y: Side, id0: int)
    requires AskerOk(a, x) && AnswererOk(a, x, y) && x.out != [] && AskedId(a, x.out[0]) == Some(id0)
    requires id0 in x.sent && x.out[0] == x.sent[id0] && id0 !in x.atSender && Requests(a, x.out, id0) == 1
    ensures AskerOk(a, x.(out := x.out[1..]))
    ensures AnswererOk(a, x.(out := x.out[1..]), Opening(y, id0, x.out[0]))
  {
    hide Requests, AskedId, RepliedId, ReplyMessage;
    forall id ensures Requests(a, x.out, id) == Requests(a, x.out[1..], id) + One(id == id0) {
      OneLeaves(a, x.out, id);
    }
  }

  /** A request is accepted, for the first and only time. */
  lemma AcceptKeeps(codec: Codec, x: Side, y: Side, id0: int)
    requires Half(codec, x, y) && x.out != [] && AskedId(codec.accessors, x.out[0]) == Some(id0)
    ensures id0 !in y.handled
    ensures Half(codec, x.(out := x.out[1..]), Opening(y, id0, x.out[0]))
  {
    hide Requests, Responses, AskedId, RepliedId, Settle, ReplyMessage, AskerOk, AnswererOk;
    var a, x', y' := codec.accessors, x.(out := x.out[1..]), Opening(y, id0, x.out[0]);
    RequestIsNew(codec, x, y, id0);
    AcceptKeepsTables(a, x, y, id0);
    forall id ensures PlaceOk(a, x', y', id) {
      assert PlaceOk(a, x, y, id);
      OneLeaves(a, x.out, id);
    }
    forall id ensures PromiseOk(codec, x', y', id) {
      assert PromiseOk(codec, x, y, id);
    }
  }

  lemma DiscardKeepsTables(a: Accessors, x: Side, y: Side, id0: int)
    requires AskerOk(a, x) && AnswererOk(a, x, y) && x.out != []
    ensures AskerOk(a, x.(out := x.out[1..]))
    ensures AnswererOk(a, x.(out := x.out[1..]), y.(dropped := y.dropped + {id0}))
  {
    hide Requests, AskedId, RepliedId, ReplyMessage;
    forall id ensures Requests(a, x.out, id) >= Requests(a, x.out[1..], id) {
      OneLeaves(a, x.out, id);
    }
  }

  /** A request is discarded. */
  lemma DiscardKeeps(codec: Codec, x: Side, y: Side, id0: int)
    requires Half(codec, x, y) && x.out != [] && AskedId(codec.accessors, x.out[0]) == Some(id0)
    ensures Half(codec, x.(out := x.out[1..]), y.(dropped := y.dropped + {id0}))
  {
    hide Requests, Responses, AskedId, RepliedId, Settle, ReplyMessage, AskerOk, AnswererOk;
    var a, x', y' := codec.accessors, x.(out := x.out[1..]), y.(dropped := y.dropped + {id0});
    RequestIsNew(codec, x, y, id0);
    DiscardKeepsTables(a, x, y, id0);
    forall id ensures PlaceOk(a, x', y', id) {
      assert PlaceOk(a, x, y, id);
      OneLeaves(a, x.out, id);
    }
    forall id ensures PromiseOk(codec, x', y', id) {
      assert PromiseOk(codec, x, y, id);
    }
  }

  // ---- Each side is a session ----

  /** The trail of request id, as far as the side has come with it. */
  ghost predicate TrailOk(x: Side, id: int)
    requires id in x.tokens && id in x.handled
  {
    var token := x.tokens[id];
    var trail := Trail(x.session.log, token);
    && |trail| >= 1 && trail[0] == Asked(token, id, x.handled[id])
    && (|trail| > 1 <==> id in x.answered)
    && (|trail| > 1 ==> trail[1] == Replying(token, ReplyMessage(id, x.answered[id])))
    && (id in x.replying ==> |trail| == 2)
  }

  /** The session is in a state that sessions get into, and it can go on with every open request. */
  ghost predicate SideOk(x: Side) {
    && Good(x.session) && Follows(INITIAL, x.session)
    && x.tokens.Keys == x.handled.Keys
    && (forall id :: id in x.answered ==> id in x.handled)
    && (forall id :: id in x.replying ==> id in x.answered)
    && (forall id :: id in x.tokens ==> x.tokens[id] < |x.session.log| && TrailOk(x, id))
  }

  /** An open request can be answered, and a reply can be handed over: the side is never stuck. */
  lemma OpenCanGoOn(x: Side, y: Side, id: int)
    requires SideOk(x)
    ensures IsOpen(x, id) ==> forall answer :: Enabled(x, y, Respond(id, answer))
    ensures id in x.replying ==> forall delivered, callback :: Enabled(x, y, HandReply(id, delivered, callback))
  {
    hide Good, Follows;
    if id in x.tokens {
      assert TrailOk(x, id);
    }
  }

  lemma SessionMoves(s: State, m: Move)
    requires Good(s) && Follows(INITIAL, s) && CanMove(s, m)
    ensures Good(After(s, m)) && Follows(INITIAL, After(s, m))
  {
    hide Good, Follows;
    MoveIsGood(s, m);
    FollowsOneMove(s, m);
    FollowsIsTransitive(INITIAL, s, After(s, m));
  }

  /** An event that concerns no request, or only one, leaves the trails of the others alone. */
  lemma OtherTrail(x: Side, e: Event, id: int)
    requires id in x.tokens && !About(e, x.tokens[id])
    ensures Trail(x.session.log + [e], x.tokens[id]) == Trail(x.session.log, x.tokens[id])
  {
    TrailGrows(x.session.log, e, x.tokens[id]);
  }

  /** A move that concerns no received request. */
  predicate ConcernsNone(m: Move) { m.Skipping? || m.Posting? || m.Handing? || m.Settling? || m.Noticing? }

  lemma MoveKeepsTrail(s: State, m: Move, token: nat)
    requires CanMove(s, m) && ConcernsNone(m)
    ensures |s.log| <= |After(s, m).log| && Trail(After(s, m).log, token) == Trail(s.log, token)
  {
    hide Trail;
    match m
    case Skipping => TrailGrows(s.log, Issued(s.nextId), token);
    case Posting(_) =>
      TrailGrows(s.log, Issued(s.nextId), token);
      TrailGrows(s.log + [Issued(s.nextId)], Sending(s.nextId, true), token);
    case Settling(id, _) => TrailGrows(s.log, Running(id, false), token);
    case Handing(message) => TrailGrows(s.log, Handed(message), token);
    case Noticing(message) => TrailGrows(s.log, Noticed(message), token);
  }

  lemma MoveKeepsTrails(x: Side, m: Move)
    requires SideOk(x) && CanMove(x.session, m) && ConcernsNone(m)
    ensures SideOk(x.(session := After(x.session, m)))
  {
    hide Good, Follows;
    SessionMoves(x.session, m);
    var x' := x.(session := After(x.session, m));
    forall id | id in x.tokens ensures x.tokens[id] < |x'.session.log| && TrailOk(x', id) {
      assert TrailOk(x, id);
      MoveKeepsTrail(x.session, m, x.tokens[id]);
    }
  }

  /** Two requests never share a token. */
  lemma TokensDiffer(x: Side, i: int, j: int)
    requires SideOk(x) && i in x.tokens && j in x.tokens && i != j
    ensures x.tokens[i] != x.tokens[j]
  {
    hide Good, Follows;
    assert TrailOk(x, i) && TrailOk(x, j);
  }

  /** What happens to request id0 leaves the others alone. */
  lemma OthersKeepTrails(x: Side, x': Side, id0: int, e: Event)
    requires SideOk(x) && (e.Asked? || e.Replying? || e.Delivered? || e.PostSent?)
    requires x'.session.log == x.session.log + [e]
    requires id0 in x.tokens ==> e.token == x.tokens[id0]
    requires id0 !in x.tokens ==> e.token == |x.session.log|
    requires forall id :: id in x.tokens && id != id0 ==>
               && id in x'.tokens && x'.tokens[id] == x.tokens[id]
               && id in x'.handled && x'.handled[id] == x.handled[id]
               && (id in x'.replying ==> id in x.replying)
               && (id in x.answered <==> id in x'.answered) && (id in x.answered ==> x'.answered[id] == x.answered[id])
    ensures forall id :: id in x.tokens && id != id0 ==> x'.tokens[id] < |x'.session.log| && TrailOk(x', id)
  {
    hide Good, Follows;
    forall id | id in x.tokens && id != id0 ensures x'.tokens[id] < |x'.session.log| && TrailOk(x', id) {
      assert TrailOk(x, id);
      if id0 in x.tokens {
        TokensDiffer(x, id, id0);
      }
      OtherTrail(x, e, id);
    }
  }

  lemma AcceptedTrail(x: Side, id0: int, message: Json)
    requires SideOk(x) && id0 !in x.handled
    ensures TrailOk(TakingRequest(x, id0, message), id0)
  {
    hide Good, Follows, Trail, ReplyMessage, Settle;
    NothingYet(x.session);
    TrailGrows(x.session.log, Asked(|x.session.log|, id0, message), |x.session.log|);
  }

  lemma AcceptKeepsSide(x: Side, id0: int, message: Json)
    requires SideOk(x) && id0 !in x.handled
    ensures SideOk(TakingRequest(x, id0, message))
  {
    hide Good, Follows, TrailOk, ReplyMessage, Settle;
    SessionMoves(x.session, Move.Accepting(id0, message));
    OthersKeepTrails(x, TakingRequest(x, id0, message), id0, Asked(|x.session.log|, id0, message));
    AcceptedTrail(x, id0, message);
  }

  lemma RespondKeepsTrail(x: Side, id0: int, answer: Answer)
    requires SideOk(x) && IsOpen(x, id0) && id0 in x.tokens && CanMove(x.session, Answering(x.tokens[id0], answer))
    ensures var x', e := AnsweringRequest(x, id0, answer), Replying(x.tokens[id0], ReplyMessage(id0, answer));
            x'.session.log == x.session.log + [e] && TrailOk(x', id0)
  {
    hide Good, Follows, Trail, ReplyMessage, Settle;
    assert TrailOk(x, id0);
    TrailGrows(x.session.log, Replying(x.tokens[id0], ReplyMessage(id0, answer)), x.tokens[id0]);
  }

  lemma AnsweringKeepsSide(x: Side, id0: int, answer: Answer)
    requires SideOk(x) && IsOpen(x, id0) && id0 in x.tokens && CanMove(x.session, Answering(x.tokens[id0], answer))
    ensures SideOk(AnsweringRequest(x, id0, answer))
  {
    hide Good, Follows, TrailOk, ReplyMessage, Settle;
    var x', token := AnsweringRequest(x, id0, answer), x.tokens[id0];
    RespondKeepsTrail(x, id0, answer);
    SessionMoves(x.session, Answering(token, answer));
    OthersKeepTrails(x, x', id0, Replying(token, ReplyMessage(id0, answer)));
  }

  lemma RespondKeepsSide(codec: Codec, x: Side, y: Side, id0: int, answer: Answer)
    requires SideOk(x) && Enabled(x, y, Respond(id0, answer))
    ensures SideOk(Acting(codec, x, y, Respond(id0, answer)))
  {
    hide SideOk, ReplyMessage, Trail;
    AnsweringKeepsSide(x, id0, answer);
    MoveKeepsTrails(AnsweringRequest(x, id0, answer), Handing(ReplyMessage(id0, answer)));
  }

  lemma HandReplyKeepsSide(codec: Codec, x: Side, y: Side, id0: int, delivered: bool, callback: bool)
    requires SideOk(x) && Enabled(x, y, HandReply(id0, delivered, callback))
    ensures SideOk(Acting(codec, x, y, HandReply(id0, delivered, callback)))
  {
    hide Good, Follows, Trail, ReplyMessage, Settle;
    var x', token := Acting(codec, x, y, HandReply(id0, delivered, callback)), x.tokens[id0];
    assert TrailOk(x, id0);
    if delivered {
      SessionMoves(x.session, Delivering(token, callback));
      OthersKeepTrails(x, x', id0, Delivered(token, callback));
      TrailGrows(x.session.log, Delivered(token, callback), token);
    } else {
      forall id | id in x.tokens ensures TrailOk(x', id) {
        assert TrailOk(x, id);
      }
    }
    assert TrailOk(x', id0);
  }

  lemma PostSendKeepsSide(codec: Codec, x: Side, y: Side, id0: int)
    requires SideOk(x) && Enabled(x, y, PostSend(id0))
    ensures SideOk(Acting(codec, x, y, PostSend(id0)))
  {
    hide Good, Follows, Trail, ReplyMessage, Settle;
    var x', token := Acting(codec, x, y, PostSend(id0)), x.tokens[id0];
    assert TrailOk(x, id0);
    SessionMoves(x.session, CallingBack(token));
    OthersKeepTrails(x, x', id0, PostSent(token));
    TrailGrows(x.session.log, PostSent(token), token);
    assert TrailOk(x', id0);
  }

  /** A side whose session is not touched. */
  lemma SameSessionKeepsSide(x: Side, x': Side)
    requires SideOk(x) && x'.session == x.session && x'.tokens == x.tokens && x'.handled == x.handled
    requires x'.answered == x.answered && x'.replying == x.replying
    ensures SideOk(x')
  {
    hide Good, Follows;
    forall id | id in x.tokens ensures TrailOk(x', id) {
      assert TrailOk(x, id);
    }
  }

  // ---- One action ----

  ghost predicate Inv(codec: Codec, n: Net) {
    && Half(codec, n.left, n.right) && Half(codec, n.right, n.left)
    && SideOk(n.left) && SideOk(n.right)
  }

  lemma SentAsks(codec: Codec, x: Side, y: Side, id: int)
    requires Half(codec, x, y) && id in x.sent
    ensures RepliedId(codec.accessors, x.sent[id]) == None
  {
    hide RepliedId;
  }

  lemma AskKeepsSide(x: Side, kind: RequestKind, params: Json)
    requires SideOk(x)
    ensures SideOk(Asking(x, kind, params))
  {
    hide SideOk, RequestMessage;
    var posted := x.(session := After(x.session, Posting(kind)));
    MoveKeepsTrails(x, Posting(kind));
    MoveKeepsTrails(posted, Handing(RequestMessage(x.session.nextId, kind, params)));
    SameSessionKeepsSide(posted.(session := Asking(x, kind, params).session), Asking(x, kind, params));
  }

  lemma TellActs(codec: Codec, x: Side, y: Side, name: string, hasParams: bool, params: Json)
    requires codec.accessors.Lawful() && Half(codec, x, y) && Half(codec, y, x) && SideOk(x)
    ensures var x' := Telling(x, name, hasParams, params); Half(codec, x', y) && Half(codec, y, x') && SideOk(x')
  {
    hide Half, SideOk, AskedId, RepliedId, NotificationMessage;
    var x', message := Telling(x, name, hasParams, params), NotificationMessage(name, hasParams, params);
    NotificationDoesNeither(codec.accessors, name, hasParams, params);
    AskerSendsOther(codec, x, y, message);
    HalfKept(codec, x.(out := x'.out), y, x', y);
    AnswererSendsOther(codec, y, x, message);
    HalfKept(codec, y, x.(out := x'.out), y, x');
    MoveKeepsTrails(x, Handing(message));
    SameSessionKeepsSide(x.(session := x'.session), x');
  }

  lemma HandActs(codec: Codec, x: Side, y: Side, id: int, delivered: bool)
    requires Half(codec, x, y) && Half(codec, y, x) && SideOk(x) && Enabled(x, y, Hand(id, delivered))
    ensures var x' := Acting(codec, x, y, Hand(id, delivered)); Half(codec, x', y) && Half(codec, y, x') && SideOk(x')
  {
    hide Half, SideOk, AskedId, RepliedId, RequestMessage, NotificationMessage;
    var x' := Acting(codec, x, y, Hand(id, delivered));
    HandKeeps(codec, x, y, id, delivered);
    SentAsks(codec, x, y, id);
    if delivered {
      AnswererSendsOther(codec, y, x, x.sent[id]);
      HalfKept(codec, y, x.(out := x'.out), y, x');
    } else {
      HalfKept(codec, y, x, y, x');
    }
    SameSessionKeepsSide(x, x');
  }

  lemma AskerActs(codec: Codec, x: Side, y: Side, action: Action)
    requires codec.accessors.Lawful() && Half(codec, x, y) && Half(codec, y, x) && SideOk(x)
    requires Enabled(x, y, action) && (action.AskUnencoded? || action.Ask? || action.Hand? || action.Tell?)
    ensures var x' := Acting(codec, x, y, action); Half(codec, x', y) && Half(codec, y, x') && SideOk(x')
  {
    hide Half, SideOk, AskedId, RepliedId, RequestMessage, NotificationMessage;
    var x' := Acting(codec, x, y, action);
    match action
    case AskUnencoded =>
      SkipKeeps(codec, x, y);
      HalfKept(codec, y, x, y, x');
      MoveKeepsTrails(x, Skipping);
    case Ask(kind, params) =>
      AskKeeps(codec, x, y, kind, params);
      HalfKept(codec, y, x, y, x');
      AskKeepsSide(x, kind, params);
    case Hand(id, delivered) =>
      HandActs(codec, x, y, id, delivered);
    case Tell(name, hasParams, params) =>
      TellActs(codec, x, y, name, hasParams, params);
  }

  lemma AnswererActs(codec: Codec, x: Side, y: Side, action: Action)
    requires codec.accessors.Lawful() && Half(codec, x, y) && Half(codec, y, x) && SideOk(x)
    requires Enabled(x, y, action) && (action.Drop? || action.Respond? || action.PostSend?)
    ensures var x' := Acting(codec, x, y, action); Half(codec, x', y) && Half(codec, y, x') && SideOk(x')
  {
    hide Half, SideOk, AskedId, RepliedId, ReplyMessage, CanMove;
    var x' := Acting(codec, x, y, action);
    match action
    case Drop(id) =>
      DropKeeps(codec, y, x, id);
      HalfKept(codec, x, y, x', y);
      SameSessionKeepsSide(x, x');
    case Respond(id, answer) =>
      RespondKeeps(codec, y, x, id, answer);
      HalfKept(codec, y, Responding(x, id, answer), y, x');
      HalfKept(codec, x, y, x', y);
      RespondKeepsSide(codec, x, y, id, answer);
    case PostSend(id) =>
      HalfKept(codec, y, x, y, x');
      HalfKept(codec, x, y, x', y);
      PostSendKeepsSide(codec, x, y, id);
  }

  lemma ReplyActs(codec: Codec, x: Side, y: Side, id: int, delivered: bool, callback: bool)
    requires codec.accessors.Lawful() && Half(codec, x, y) && Half(codec, y, x) && SideOk(x)
    requires Enabled(x, y, HandReply(id, delivered, callback))
    ensures var x' := Acting(codec, x, y, HandReply(id, delivered, callback));
            Half(codec, x', y) && Half(codec, y, x') && SideOk(x')
  {
    hide Half, SideOk, AskedId, RepliedId, ReplyMessage, CanMove;
    var x' := Acting(codec, x, y, HandReply(id, delivered, callback));
    HandReplyKeeps(codec, y, x, id, delivered);
    HalfKept(codec, y, HandingReply(x, id, delivered), y, x');
    if delivered {
      AskerSendsOther(codec, x, y, ReplyMessage(id, x.answered[id]));
      HalfKept(codec, x.(out := x'.out), y, x', y);
    } else {
      HalfKept(codec, x, y, x', y);
    }
    HandReplyKeepsSide(codec, x, y, id, delivered, callback);
  }

  lemma TakeReplyKeeps(codec: Codec, x: Side, y: Side, id: int)
    requires Half(codec, x, y) && Half(codec, y, x) && SideOk(x) && y.out != []
    requires Classify(codec.accessors, Some(y.out[0])) == Response(id)
    ensures id in x.session.pending
    ensures var x', y' := TakingReply(codec, x, id, y.out[0]), y.(out := y.out[1..]);
            Half(codec, x', y') && Half(codec, y', x') && SideOk(x')
  {
    hide Half, SideOk, Settle, Classify;
    ReplyKeeps(codec, x, y, id);
    AskerHeadLeaves(codec, y, x);
    HalfKept(codec, y.(out := y.out[1..]), x, y.(out := y.out[1..]), TakingReply(codec, x, id, y.out[0]));
    MoveKeepsTrails(x, Move.Settling(id, Settle(codec, x.session.pending[id], y.out[0])));
  }

  lemma TakeRequestKeeps(codec: Codec, x: Side, y: Side, id: int)
    requires Half(codec, x, y) && Half(codec, y, x) && SideOk(x) && y.out != []
    requires AskedId(codec.accessors, y.out[0]) == Some(id) && RepliedId(codec.accessors, y.out[0]) == None
    ensures var x', y' := TakingRequest(x, id, y.out[0]), y.(out := y.out[1..]);
            Half(codec, x', y') && Half(codec, y', x') && SideOk(x')
  {
    hide Half, SideOk, AskedId, RepliedId;
    var x', y' := TakingRequest(x, id, y.out[0]), y.(out := y.out[1..]);
    AcceptKeeps(codec, y, x, id);
    HalfKept(codec, y', Opening(x, id, y.out[0]), y', x');
    AnswererHeadLeaves(codec, x, y);
    HalfKept(codec, x, y', x', y');
    AcceptKeepsSide(x, id, y.out[0]);
  }

  lemma DiscardRequestKeeps(codec: Codec, x: Side, y: Side, id: int)
    requires Half(codec, x, y) && Half(codec, y, x) && SideOk(x) && y.out != []
    requires AskedId(codec.accessors, y.out[0]) == Some(id) && RepliedId(codec.accessors, y.out[0]) == None
    ensures var x', y' := x.(dropped := x.dropped + {id}), y.(out := y.out[1..]);
            Half(codec, x', y') && Half(codec, y', x') && SideOk(x')
  {
    hide Half, SideOk, AskedId, RepliedId;
    var x', y' := x.(dropped := x.dropped + {id}), y.(out := y.out[1..]);
    DiscardKeeps(codec, y, x, id);
    AnswererHeadLeaves(codec, x, y);
    HalfKept(codec, x, y', x', y');
    SameSessionKeepsSide(x, x');
  }

  lemma TakeNoticeKeeps(codec: Codec, x: Side, y: Side, registered: bool)
    requires Half(codec, x, y) && Half(codec, y, x) && SideOk(x) && y.out != []
    requires Classify(codec.accessors, Some(y.out[0])).Notification?
    ensures var x', y' := Taking(codec, x, y.out[0], registered), y.(out := y.out[1..]);
            Half(codec, x', y') && Half(codec, y', x') && SideOk(x')
  {
    hide Half, SideOk, Classify;
    var x', y', noticing := Taking(codec, x, y.out[0], registered), y.(out := y.out[1..]), Noticing(y.out[0]);
    AskerHeadLeaves(codec, y, x);
    AnswererHeadLeaves(codec, x, y);
    HalfKept(codec, x, y', x', y');
    HalfKept(codec, y', x, y', x');
    if registered {
      MoveKeepsTrails(x, noticing);
      SameSessionKeepsSide(x.(session := After(x.session, noticing)), x');
    } else {
      SameSessionKeepsSide(x, x');
    }
  }

  lemma TakeKeeps(codec: Codec, x: Side, y: Side, registered: bool)
    requires codec.accessors.Lawful() && Half(codec, x, y) && Half(codec, y, x) && SideOk(x) && SideOk(y) && y.out != []
    ensures var x', y' := Taking(codec, x, y.out[0], registered), y.(out := y.out[1..]);
            Half(codec, x', y') && Half(codec, y', x') && SideOk(x') && SideOk(y')
  {
    hide Half, SideOk, Settle;
    SameSessionKeepsSide(y, y.(out := y.out[1..]));
    match Classify(codec.accessors, Some(y.out[0]))
    case Response(id) => TakeReplyKeeps(codec, x, y, id);
    case Request(id, _) =>
      if registered {
        TakeRequestKeeps(codec, x, y, id);
      } else {
        DiscardRequestKeeps(codec, x, y, id);
      }
    case Notification(_) => TakeNoticeKeeps(codec, x, y, registered);
    case Malformed =>
      AskerHeadLeaves(codec, y, x);
      AnswererHeadLeaves(codec, x, y);
  }

  /** One action of x keeps both halves, and both sides. */
  lemma ActKeeps(codec: Codec, x: Side, y: Side, action: Action)
    requires codec.accessors.Lawful() && Half(codec, x, y) && Half(codec, y, x) && SideOk(x) && SideOk(y)
    requires Enabled(x, y, action)
    ensures var x', y' := Acting(codec, x, y, action), Meanwhile(y, action);
            Half(codec, x', y') && Half(codec, y', x') && SideOk(x') && SideOk(y')
  {
    hide Half, SideOk;
    match action
    case Take(registered) => TakeKeeps(codec, x, y, registered);
    case Drop(_) => AnswererActs(codec, x, y, action);
    case Respond(_, _) => AnswererActs(codec, x, y, action);
    case HandReply(id, delivered, callback) => ReplyActs(codec, x, y, id, delivered, callback);
    case PostSend(_) => AnswererActs(codec, x, y, action);
    case _ => AskerActs(codec, x, y, action);
  }

  // ---- Runs ----

  lemma StartIsOk(codec: Codec)
    ensures Inv(codec, Net(FreshSide(), FreshSide()))
  {
    FollowsItself(INITIAL);
  }

  lemma {:induction false} RunKeeps(codec: Codec, steps: seq<Step>)
    requires codec.accessors.Lawful()
    ensures Inv(codec, Run(codec, steps))
  {
    hide Half, SideOk, Acting, Enabled;
    if steps == [] {
      StartIsOk(codec);
    } else {
      var before, s := Run(codec, steps[..|steps| - 1]), steps[|steps| - 1];
      RunKeeps(codec, steps[..|steps| - 1]);
      if s.onLeft && Enabled(before.left, before.right, s.action) {
        ActKeeps(codec, before.left, before.right, s.action);
      } else if !s.onLeft && Enabled(before.right, before.left, s.action) {
        ActKeeps(codec, before.right, before.left, s.action);
      }
    }
  }

  // ---- What it means ----

  function Asker(n: Net, left: bool): Side { if left then n.left else n.right }

  function Peer(n: Net, left: bool): Side { if left then n.right else n.left }

  /** In every run, a promise of id k is set only with what the peer's handler answered when it
      was given the very request that was sent under id k. */
  lemma PromiseIsOwnAnswer(codec: Codec, steps: seq<Step>, left: bool, k: int)
    requires codec.accessors.Lawful()
    requires var x := Asker(Run(codec, steps), left);
             k in x.session.promises && x.session.promises[k].Some?
    ensures var n := Run(codec, steps);
            var x, y := Asker(n, left), Peer(n, left);
            && k in x.sent && k in x.kinds && k in y.handled && k in y.answered
            && y.handled[k] == x.sent[k]
            && Settle(codec, x.kinds[k], ReplyMessage(k, y.answered[k])) == Success(x.session.promises[k].value)
  {
    hide Run, SideOk, Settle, ReplyMessage;
    RunKeeps(codec, steps);
    var n := Run(codec, steps);
    assert PromiseOk(codec, Asker(n, left), Peer(n, left), k);
  }

  /** In every run, a request that reached the sender is in exactly one place, and any other id in
      none. */
  lemma ExactlyOnePlace(codec: Codec, steps: seq<Step>, left: bool, k: int)
    requires codec.accessors.Lawful()
    ensures var n := Run(codec, steps);
            var x, y := Asker(n, left), Peer(n, left);
            Places(codec.accessors, x, y, k) == if k in x.sent then 1 else 0
  {
    hide Run, SideOk;
    RunKeeps(codec, steps);
    var n := Run(codec, steps);
    assert PlaceOk(codec.accessors, Asker(n, left), Peer(n, left), k);
  }

  /** In every run, each side's session is in a state that moves of a session lead to, with every
      guarantee that holds for those. */
  lemma SidesAreSessions(codec: Codec, steps: seq<Step>)
    requires codec.accessors.Lawful()
    ensures var n := Run(codec, steps);
            && Good(n.left.session) && Follows(INITIAL, n.left.session)
            && Good(n.right.session) && Follows(INITIAL, n.right.session)
  {
    hide Run, Good, Follows, Half;
    RunKeeps(codec, steps);
  }
}
