/** What arrives in runs of two sessions: requests and answers as the steps of the run made them,
    notifications in their order, and every request that is not refused or left without a reply. */
module Delivery {
  import opened Results
  import opened Json
  import opened Messages
  import opened Sessions
  import opened Network

  // ---- Which step it was ----

  /** Step i is an Ask of this side, and the id it was given is k. */
  ghost predicate AsksAt(codec: Codec, steps: seq<Step>, left: bool, k: int, i: nat) {
    && i < |steps| && steps[i].onLeft == left && steps[i].action.Ask?
    && Asker(Run(codec, steps[..i]), left).session.nextId == k
  }

  lemma OneMoreStep(codec: Codec, steps: seq<Step>, s: Step)
    ensures Run(codec, steps + [s]) == Do(codec, Run(codec, steps), s)
  {
    hide Do;
    assert (steps + [s])[..|steps|] == steps;
  }

  /** What a step makes of one side. */
  lemma StepOn(codec: Codec, n: Net, s: Step, left: bool)
    ensures var x, y := Asker(n, left), Peer(n, left);
            Asker(Do(codec, n, s), left) ==
            if s.onLeft == left then (if Enabled(x, y, s.action) then Acting(codec, x, y, s.action) else x)
            else if Enabled(y, x, s.action) then Meanwhile(x, s.action) else x
  {
    hide Acting, Meanwhile, Enabled;
  }

  /** As asking side, x2 has asked what x has. */
  ghost predicate SameAsks(x: Side, x2: Side) {
    x2.sent == x.sent && x2.kinds == x.kinds && x2.params == x.params
  }

  /** What a side does not touch when it takes a message. */
  ghost predicate SameButTaken(x: Side, x2: Side) {
    && SameAsks(x, x2) && x2.out == x.out && x2.atSender == x.atSender && x2.failed == x.failed
    && x2.answered == x.answered && x2.told == x.told
  }

  lemma TakenTouches(codec: Codec, x: Side, id: int, name: string, message: Json, registered: bool)
    ensures SameButTaken(x, TakingRequest(x, id, message))
    ensures SameButTaken(x, TakingNotice(x, name, message, registered))
    ensures id in x.session.pending ==> SameButTaken(x, TakingReply(codec, x, id, message))
  {
    hide Settle, After, ParamsOf;
  }

  lemma TakingTouches(codec: Codec, x: Side, message: Json, registered: bool)
    ensures SameButTaken(x, Taking(codec, x, message, registered))
  {
    hide Settle, Classify, TakingRequest, TakingNotice, TakingReply;
    match Classify(codec.accessors, Some(message))
    case Malformed =>
    case Notification(name) => TakenTouches(codec, x, 0, name, message, registered);
    case Response(id) => TakenTouches(codec, x, id, "", message, registered);
    case Request(id, _) => TakenTouches(codec, x, id, "", message, registered);
  }

  lemma ActingAsks(codec: Codec, x: Side, y: Side, action: Action)
    requires Enabled(x, y, action) && !action.Take? && !action.Ask?
    ensures SameAsks(x, Acting(codec, x, y, action))
  {
    hide CanMove, Settle, ReplyMessage, NotificationMessage, After;
    match action
    case Respond(_, _) =>
    case HandReply(_, _, _) =>
    case Hand(_, _) =>
    case _ =>
  }

  /** Each record of a side grows by one kind of action only. */
  lemma ActingTouches(codec: Codec, x: Side, y: Side, action: Action)
    requires Enabled(x, y, action)
    ensures var x' := Acting(codec, x, y, action);
            && (!action.Ask? ==> SameAsks(x, x'))
            && (!action.Respond? ==> x'.answered == x.answered)
            && (!action.Hand? ==> x'.failed == x.failed)
            && (!action.Take? && !action.Drop? && !action.HandReply? ==> x'.dropped == x.dropped)
            && (!action.Tell? ==> x'.told == x.told) && (!action.Take? ==> x'.heard == x.heard)
  {
    hide CanMove, Settle, RequestMessage, ReplyMessage, NotificationMessage, After, Taking, SameAsks;
    match action
    case Take(registered) =>
      TakingTouches(codec, x, y.out[0], registered);
      assert SameAsks(x, Taking(codec, x, y.out[0], registered));
    case Ask(_, _) =>
    case _ => ActingAsks(codec, x, y, action);
  }

  lemma AskAdds(codec: Codec, x: Side, y: Side, kind: RequestKind, params: Json)
    requires Enabled(x, y, Ask(kind, params))
    ensures var x', id := Acting(codec, x, y, Ask(kind, params)), x.session.nextId;
            && x'.sent == x.sent[id := RequestMessage(id, kind, params)]
            && x'.kinds == x.kinds[id := kind] && x'.params == x.params[id := params]
  {
    hide RequestMessage;
  }

  lemma NothingSentYet(codec: Codec, left: bool)
    ensures var x := Asker(Run(codec, []), left);
            x.sent == map[] && x.answered == map[] && x.failed == {} && x.dropped == {}
  {
  }

  /** In every run, what was sent under an id is the request that an Ask of this side made when that was
      the next id, with the method and the parameters of that Ask. */
  lemma {:induction false} SentWasAsked(codec: Codec, steps: seq<Step>, left: bool, k: int) returns (i: nat)
    requires k in Asker(Run(codec, steps), left).sent
    ensures AsksAt(codec, steps, left, k, i)
    ensures var x, ask := Asker(Run(codec, steps), left), steps[i].action;
            && k in x.kinds && x.kinds[k] == ask.kind && k in x.params && x.params[k] == ask.params
            && x.sent[k] == RequestMessage(k, ask.kind, ask.params)
    decreases |steps|
  {
    hide Acting, RequestMessage, Enabled, Do, Asker, Peer;
    NothingSentYet(codec, left);
    var before, s := steps[..|steps| - 1], steps[|steps| - 1];
    var n := Run(codec, before);
    var x, y := Asker(n, left), Peer(n, left);
    StepOn(codec, n, s, left);
    if s.onLeft == left && Enabled(x, y, s.action) {
      if s.action.Ask? {
        AskAdds(codec, x, y, s.action.kind, s.action.params);
        if k == x.session.nextId {
          return |before|;
        }
      } else {
        ActingTouches(codec, x, y, s.action);
      }
    }
    i := SentWasAsked(codec, before, left, k);
    assert before[..i] == steps[..i];
  }

  lemma RespondAdds(codec: Codec, x: Side, y: Side, id: int, answer: Answer)
    requires Enabled(x, y, Respond(id, answer))
    ensures Acting(codec, x, y, Respond(id, answer)).answered == x.answered[id := answer]
  {
    hide CanMove, ReplyMessage, After;
  }

  /** In every run, what a side answered under an id is what a step of it answered there. */
  lemma {:induction false} AnswerWasGiven(codec: Codec, steps: seq<Step>, left: bool, k: int) returns (i: nat)
    requires k in Asker(Run(codec, steps), left).answered
    ensures i < |steps| && steps[i] == Step(left, Respond(k, Asker(Run(codec, steps), left).answered[k]))
    decreases |steps|
  {
    hide Acting, Enabled, Do, Asker, Peer;
    NothingSentYet(codec, left);
    var before, s := steps[..|steps| - 1], steps[|steps| - 1];
    var n := Run(codec, before);
    var x, y := Asker(n, left), Peer(n, left);
    StepOn(codec, n, s, left);
    if s.onLeft == left && Enabled(x, y, s.action) {
      ActingTouches(codec, x, y, s.action);
      if s.action.Respond? {
        RespondAdds(codec, x, y, s.action.id, s.action.answer);
        if k == s.action.id {
          return |before|;
        }
      }
    }
    i := AnswerWasGiven(codec, before, left, k);
  }

  lemma HandFails(codec: Codec, x: Side, y: Side, id: int, delivered: bool)
    requires Enabled(x, y, Hand(id, delivered))
    ensures Acting(codec, x, y, Hand(id, delivered)).failed == if delivered then x.failed else x.failed + {id}
  {
  }

  /** In every run, a request was refused only by a step of its own sender. */
  lemma {:induction false} RefusedByASender(codec: Codec, steps: seq<Step>, left: bool, k: int) returns (i: nat)
    requires k in Asker(Run(codec, steps), left).failed
    ensures i < |steps| && steps[i] == Step(left, Hand(k, false))
    decreases |steps|
  {
    hide Acting, Enabled, Do, Asker, Peer;
    NothingSentYet(codec, left);
    var before, s := steps[..|steps| - 1], steps[|steps| - 1];
    var n := Run(codec, before);
    var x, y := Asker(n, left), Peer(n, left);
    StepOn(codec, n, s, left);
    if s.onLeft == left && Enabled(x, y, s.action) {
      ActingTouches(codec, x, y, s.action);
      if s.action.Hand? {
        HandFails(codec, x, y, s.action.id, s.action.delivered);
        if s.action == Hand(k, false) {
          return |before|;
        }
      }
    }
    i := RefusedByASender(codec, before, left, k);
  }

  /** A step that leaves request k without a reply: its handler ends without an answer, the sender
      refuses the reply, or there is no handler. */
  predicate LeavesUnanswered(action: Action, k: int) {
    action == Drop(k) || (action.HandReply? && action.id == k && !action.delivered) || action == Take(false)
  }

  lemma TakenDrops(codec: Codec, x: Side, id: int, name: string, message: Json, registered: bool)
    ensures TakingRequest(x, id, message).dropped == TakingNotice(x, name, message, registered).dropped == x.dropped
    ensures id in x.session.pending ==> TakingReply(codec, x, id, message).dropped == x.dropped
  {
    hide Settle, After, ParamsOf;
  }

  lemma TakingDrops(codec: Codec, x: Side, message: Json, registered: bool)
    ensures registered ==> Taking(codec, x, message, registered).dropped == x.dropped
  {
    hide Settle, Classify, TakingRequest, TakingNotice, TakingReply;
    match Classify(codec.accessors, Some(message))
    case Malformed =>
    case Notification(name) => TakenDrops(codec, x, 0, name, message, registered);
    case Response(id) => TakenDrops(codec, x, id, "", message, registered);
    case Request(id, _) => TakenDrops(codec, x, id, "", message, registered);
  }

  lemma DropsOnly(codec: Codec, x: Side, y: Side, action: Action, k: int)
    requires Enabled(x, y, action) && k in Acting(codec, x, y, action).dropped
    ensures k in x.dropped || LeavesUnanswered(action, k)
  {
    hide CanMove, Settle, RequestMessage, ReplyMessage, NotificationMessage, After, Taking;
    match action
    case Take(registered) => TakingDrops(codec, x, y.out[0], registered);
    case Drop(_) =>
    case HandReply(_, _, _) =>
    case _ => ActingTouches(codec, x, y, action);
  }

  /** In every run, a request got no reply only by a step of the side that received it. */
  lemma {:induction false} LeftByAStep(codec: Codec, steps: seq<Step>, left: bool, k: int) returns (i: nat)
    requires k in Asker(Run(codec, steps), left).dropped
    ensures i < |steps| && steps[i].onLeft == left && LeavesUnanswered(steps[i].action, k)
    decreases |steps|
  {
    hide Acting, Enabled, Do, Asker, Peer;
    NothingSentYet(codec, left);
    var before, s := steps[..|steps| - 1], steps[|steps| - 1];
    var n := Run(codec, before);
    var x, y := Asker(n, left), Peer(n, left);
    StepOn(codec, n, s, left);
    if s.onLeft == left && Enabled(x, y, s.action) {
      DropsOnly(codec, x, y, s.action, k);
      if LeavesUnanswered(s.action, k) {
        return |before|;
      }
    }
    i := LeftByAStep(codec, before, left, k);
  }

  /** What the steps that do not bring a request forward leave behind. */
  lemma StepsThatEnd(codec: Codec, x: Side, y: Side, action: Action, k: int)
    requires SideOk(x) && Enabled(x, y, action)
    ensures var x' := Acting(codec, x, y, action);
            && (action == Drop(k) ==> k in x'.dropped) && (action == Hand(k, false) ==> k in x'.failed)
            && (action.HandReply? && action.id == k && !action.delivered ==> k in x'.dropped)
            && (action.AskUnencoded? ==> x'.session.nextId == x.session.nextId + 1 && x'.sent == x.sent)
            && (action == PostSend(k) ==>
                 && k in x'.tokens && k in x.tokens
                 && Trail(x'.session.log, x'.tokens[k]) == Trail(x.session.log, x.tokens[k]) + [PostSent(x.tokens[k])])
  {
    hide Good, Follows, Trail, Settle, RequestMessage, ReplyMessage, NotificationMessage, Taking;
    match action
    case PostSend(id) => TrailGrows(x.session.log, PostSent(x.tokens[id]), x.tokens[id]);
    case _ =>
  }

  // ---- From end to end ----

  lemma HandledWasSent(codec: Codec, x: Side, y: Side, k: int)
    requires Half(codec, x, y) && k in y.handled
    ensures k in x.sent && y.handled[k] == x.sent[k] && IsI64(k)
  {
    hide AskedId, RepliedId, Requests;
  }

  lemma HandledIsRecorded(y: Side, k: int)
    requires SideOk(y) && k in y.handled
    ensures k in y.tokens && Trail(y.session.log, y.tokens[k]) != []
    ensures Trail(y.session.log, y.tokens[k])[0] == Asked(y.tokens[k], k, y.handled[k])
  {
    hide Good, Follows, Trail;
    assert TrailOk(y, k);
  }

  lemma RequestIsRead(codec: Codec, k: int, kind: RequestKind, params: Json)
    requires codec.accessors.Lawful() && IsI64(k)
    ensures var m := RequestMessage(k, kind, params);
            && IsRequest(m, k, kind.method_, Carried(kind.hasParams, params))
            && ParamsOf(m) == Carried(kind.hasParams, params)
            && Classify(codec.accessors, Some(m)) == Request(k, kind.method_)
  {
    RequestHolds(k, kind, params, RequestMessage(k, kind, params));
    BuiltIsClassified(codec.accessors, k, kind, "", false, params, ResultAnswer(Null));
  }

  lemma AskIsAsk(codec: Codec, steps: seq<Step>, left: bool, k: int, i: nat)
    requires AsksAt(codec, steps, left, k, i)
    ensures i < |steps| && steps[i].action.Ask?
  {
    hide Run;
  }

  /** In every run, a handler is given, under each id, the method and the very parameters that the other
      side asked with when that was its next id; and its session records that. */
  lemma HandlerGetsWhatWasAsked(codec: Codec, steps: seq<Step>, left: bool, k: int) returns (i: nat)
    requires codec.accessors.Lawful() && k in Peer(Run(codec, steps), left).handled
    ensures AsksAt(codec, steps, left, k, i)
    ensures var y, ask := Peer(Run(codec, steps), left), steps[i].action;
            && IsRequest(y.handled[k], k, ask.kind.method_, Carried(ask.kind.hasParams, ask.params))
            && ParamsOf(y.handled[k]) == Carried(ask.kind.hasParams, ask.params)
            && Classify(codec.accessors, Some(y.handled[k])) == Request(k, ask.kind.method_)
            && k in y.tokens && Trail(y.session.log, y.tokens[k]) != []
            && Trail(y.session.log, y.tokens[k])[0] == Asked(y.tokens[k], k, y.handled[k])
  {
    hide Run, Half, SideOk, RequestMessage, IsRequest, ParamsOf, Classify, AsksAt, Trail;
    RunKeeps(codec, steps);
    var n := Run(codec, steps);
    HandledWasSent(codec, Asker(n, left), Peer(n, left), k);
    HandledIsRecorded(Peer(n, left), k);
    i := SentWasAsked(codec, steps, left, k);
    assert steps[i].action.Ask? by { AskIsAsk(codec, steps, left, k, i); }
    RequestIsRead(codec, k, steps[i].action.kind, steps[i].action.params);
  }

  /** In every run, a promise is set with what the answer that a step of the other side gave under that
      id decodes to, as a result or an error of the kind of request that was asked under it. */
  lemma PromiseIsDecodedAnswer(codec: Codec, steps: seq<Step>, left: bool, k: int) returns (i: nat, j: nat)
    requires codec.accessors.Lawful()
    requires var x := Asker(Run(codec, steps), left);
             k in x.session.promises && x.session.promises[k].Some?
    ensures AsksAt(codec, steps, left, k, i)
    ensures j < |steps| && steps[j].onLeft != left && steps[j].action.Respond? && steps[j].action.id == k
    ensures var kind, s := steps[i].action.kind, Asker(Run(codec, steps), left).session.promises[k].value;
            match steps[j].action.answer
            case ResultAnswer(v) => s.Resolved? && codec.result(kind.method_, v) == Some(s.value)
            case ErrorAnswer(v) => kind.hasError && s.Rejected? && codec.error(kind.method_, v) == Some(s.value)
  {
    hide Run, Settle, ReplyMessage, RequestMessage, AsksAt;
    PromiseIsOwnAnswer(codec, steps, left, k);
    var n := Run(codec, steps);
    var x, y := Asker(n, left), Peer(n, left);
    i := SentWasAsked(codec, steps, left, k);
    AskIsAsk(codec, steps, left, k, i);
    j := AnswerWasGiven(codec, steps, !left, k);
    ReplySettles(codec, x.kinds[k], k, y.answered[k], x.session.promises[k].value);
  }

  // ---- Notifications ----

  /** What a message says, if it is a notification. */
  function NoticeOf(a: Accessors, m: Json): seq<Notice> {
    var c := Classify(a, Some(m));
    if c.Notification? then [Notice(c.name, ParamsOf(m))] else []
  }

  function Notices(a: Accessors, q: seq<Json>): seq<Notice> {
    if q == [] then [] else NoticeOf(a, q[0]) + Notices(a, q[1..])
  }

  lemma {:induction false} NoticesAppend(a: Accessors, q: seq<Json>, m: Json)
    ensures Notices(a, q + [m]) == Notices(a, q) + NoticeOf(a, m)
  {
    hide NoticeOf;
    if q == [] {
      assert [m][1..] == [];
      assert q + [m] == [m];
    } else {
      assert (q + [m])[1..] == q[1..] + [m];
      NoticesAppend(a, q[1..], m);
    }
  }

  /** What a step tells the other side. */
  function Tells(s: Step, left: bool): seq<Notice> {
    if s.onLeft == left && s.action.Tell? then [Notice(s.action.name, Carried(s.action.hasParams, s.action.params))]
    else []
  }

  /** What the steps of a run tell the other side, in their order. */
  function AllTold(steps: seq<Step>, left: bool): seq<Notice> {
    if steps == [] then [] else AllTold(steps[..|steps| - 1], left) + Tells(steps[|steps| - 1], left)
  }

  /** What was told has been heard, or is on its way, in this order. */
  ghost predicate Underway(a: Accessors, x: Side, y: Side) { x.told == y.heard + Notices(a, x.out) }

  lemma NoticeIsRead(a: Accessors, name: string, hasParams: bool, params: Json)
    requires a.Lawful()
    ensures NoticeOf(a, NotificationMessage(name, hasParams, params)) == [Notice(name, Carried(hasParams, params))]
  {
    BuiltIsClassified(a, 0, RequestKind("", false, false), name, hasParams, params, ResultAnswer(Null));
  }

  lemma OthersAreNoNotices(a: Accessors, m: Json)
    requires AskedId(a, m).Some? || RepliedId(a, m).Some?
    ensures NoticeOf(a, m) == []
  {
  }

  lemma SentIsAsked(codec: Codec, x: Side, y: Side, id: int)
    requires Half(codec, x, y) && id in x.sent
    ensures AskedId(codec.accessors, x.sent[id]) == Some(id)
  {
    hide AskedId;
  }

  lemma AnswerIsReply(codec: Codec, x: Side, y: Side, id: int)
    requires codec.accessors.Lawful() && Half(codec, y, x) && id in x.answered
    ensures RepliedId(codec.accessors, ReplyMessage(id, x.answered[id])) == Some(id)
  {
    hide RepliedId, ReplyMessage, AskerOk, AnswererOk;
    AnswerReplies(codec.accessors, y, x, id);
  }

  /** What a side adds to its queue. */
  lemma QueueGrows(codec: Codec, x: Side, y: Side, action: Action)
    requires codec.accessors.Lawful() && Half(codec, x, y) && Half(codec, y, x) && Enabled(x, y, action)
    ensures var x', a := Acting(codec, x, y, action), codec.accessors;
            && Notices(a, x'.out) == Notices(a, x.out) + Tells(Step(true, action), true)
            && x'.told == x.told + Tells(Step(true, action), true)
  {
    hide Half, NoticeOf, Notices, CanMove, RequestMessage, ReplyMessage, NotificationMessage, After, Taking;
    hide AskedId, RepliedId;
    var a, x' := codec.accessors, Acting(codec, x, y, action);
    ActingTouches(codec, x, y, action);
    match action
    case Hand(id, delivered) =>
      SentIsAsked(codec, x, y, id);
      OthersAreNoNotices(a, x.sent[id]);
      NoticesAppend(a, x.out, x.sent[id]);
    case HandReply(id, delivered, callback) =>
      AnswerIsReply(codec, x, y, id);
      OthersAreNoNotices(a, ReplyMessage(id, x.answered[id]));
      NoticesAppend(a, x.out, ReplyMessage(id, x.answered[id]));
    case Tell(name, hasParams, params) =>
      NoticeIsRead(a, name, hasParams, params);
      NoticesAppend(a, x.out, NotificationMessage(name, hasParams, params));
    case Take(registered) => TakingTouches(codec, x, y.out[0], registered);
    case _ =>
  }

  lemma TakenIsHeard(codec: Codec, x: Side, id: int, name: string, message: Json, registered: bool)
    ensures TakingRequest(x, id, message).heard == x.heard
    ensures TakingNotice(x, name, message, registered).heard == x.heard + [Notice(name, ParamsOf(message))]
    ensures id in x.session.pending ==> TakingReply(codec, x, id, message).heard == x.heard
  {
    hide Settle, After, ParamsOf;
  }

  lemma TakingIsHeard(codec: Codec, x: Side, message: Json, registered: bool)
    ensures Taking(codec, x, message, registered).heard == x.heard + NoticeOf(codec.accessors, message)
  {
    hide Settle, Classify, ParamsOf, TakingRequest, TakingNotice, TakingReply;
    match Classify(codec.accessors, Some(message))
    case Malformed =>
    case Notification(name) => TakenIsHeard(codec, x, 0, name, message, registered);
    case Response(id) => TakenIsHeard(codec, x, id, "", message, registered);
    case Request(id, _) => TakenIsHeard(codec, x, id, "", message, registered);
  }

  lemma TellIsEnabled(x: Side, y: Side, action: Action)
    ensures action.Tell? ==> Enabled(x, y, action)
  {
  }

  lemma HeadIsHeard(codec: Codec, x: Side, y: Side, registered: bool)
    requires Enabled(x, y, Take(registered))
    ensures y.out != [] && Notices(codec.accessors, y.out) ==
                           NoticeOf(codec.accessors, y.out[0]) + Notices(codec.accessors, y.out[1..])
    ensures Acting(codec, x, y, Take(registered)).heard == x.heard + NoticeOf(codec.accessors, y.out[0])
  {
    hide NoticeOf, Taking;
    TakingIsHeard(codec, x, y.out[0], registered);
  }

  lemma TellerActs(codec: Codec, x: Side, y: Side, action: Action)
    requires codec.accessors.Lawful() && Half(codec, x, y) && Half(codec, y, x) && Enabled(x, y, action)
    requires Underway(codec.accessors, x, y)
    ensures Underway(codec.accessors, Acting(codec, x, y, action), Meanwhile(y, action))
    ensures Acting(codec, x, y, action).told == x.told + Tells(Step(true, action), true)
  {
    hide Half, Notices, Tells, Acting, Enabled;
    QueueGrows(codec, x, y, action);
  }

  lemma HearerActs(codec: Codec, x: Side, y: Side, action: Action)
    requires Enabled(y, x, action) && Underway(codec.accessors, x, y)
    ensures Underway(codec.accessors, Meanwhile(x, action), Acting(codec, y, x, action))
    ensures Meanwhile(x, action).told == x.told
  {
    hide Notices, NoticeOf, Acting, Enabled;
    ActingTouches(codec, y, x, action);
    if action.Take? {
      HeadIsHeard(codec, y, x, action.registered);
    }
  }

  /** A step keeps what is told in order. */
  lemma StepKeepsUnderway(codec: Codec, n: Net, s: Step, left: bool)
    requires codec.accessors.Lawful() && Inv(codec, n) && Underway(codec.accessors, Asker(n, left), Peer(n, left))
    ensures var n' := Do(codec, n, s);
            && Underway(codec.accessors, Asker(n', left), Peer(n', left))
            && Asker(n', left).told == Asker(n, left).told + Tells(s, left)
  {
    hide Half, SideOk, Underway, Acting, Meanwhile, Enabled, Do;
    var x, y := Asker(n, left), Peer(n, left);
    StepOn(codec, n, s, left);
    StepOn(codec, n, s, !left);
    TellIsEnabled(x, y, s.action);
    if s.onLeft == left && Enabled(x, y, s.action) {
      TellerActs(codec, x, y, s.action);
    } else if s.onLeft != left && Enabled(y, x, s.action) {
      HearerActs(codec, x, y, s.action);
    }
  }

  lemma NothingUnderway(codec: Codec, left: bool)
    ensures var n := Run(codec, []);
            Underway(codec.accessors, Asker(n, left), Peer(n, left)) && Asker(n, left).told == []
  {
  }

  /** In every run, the notifications that reached one side, followed by those on their way to it, are
      those the steps of the other side told it, in their order, with their parameters. */
  lemma {:induction false} NoticesArriveInOrder(codec: Codec, steps: seq<Step>, left: bool)
    requires codec.accessors.Lawful()
    ensures var n := Run(codec, steps);
            && Underway(codec.accessors, Asker(n, left), Peer(n, left))
            && Asker(n, left).told == AllTold(steps, left)
  {
    hide Inv, Do, Underway, Tells;
    if steps == [] {
      NothingUnderway(codec, left);
    } else {
      var before := steps[..|steps| - 1];
      NoticesArriveInOrder(codec, before, left);
      RunKeeps(codec, before);
      StepKeepsUnderway(codec, Run(codec, before), steps[|steps| - 1], left);
    }
  }
}
