/** No request gets stuck: whatever has happened so far, each one that was not refused, and was not left
    without a reply, can still be settled. */
module Progress {
  import opened Results
  import opened Json
  import opened Messages
  import opened Sessions
  import opened Network
  import opened Delivery

  ghost function Continue(codec: Codec, n: Net, more: seq<Step>): Net
    decreases |more|
  {
    if more == [] then n else Continue(codec, Do(codec, n, more[0]), more[1..])
  }

  lemma {:induction false} ContinueRun(codec: Codec, steps: seq<Step>, more: seq<Step>)
    ensures Continue(codec, Run(codec, steps), more) == Run(codec, steps + more)
    decreases |more|
  {
    hide Do;
    if more == [] {
      assert steps + more == steps;
    } else {
      OneMoreStep(codec, steps, more[0]);
      ContinueRun(codec, steps + [more[0]], more[1..]);
      assert steps + [more[0]] + more[1..] == steps + more;
    }
  }

  /** Request k of x is neither refused nor left without a reply. */
  ghost predicate Alive(x: Side, y: Side, k: int) { k in x.sent && k !in x.failed && k !in y.dropped }

  /** How many steps request k is away from being settled, at least: how far it has come, and how many
      messages are before it in the queue it is in. */
  ghost function Stage(a: Accessors, x: Side, y: Side, k: int): nat {
    if k in x.atSender then 5
    else if Requests(a, x.out, k) > 0 then 4
    else if IsOpen(y, k) then 3
    else if k in y.replying then 2
    else if Responses(a, y.out, k) > 0 then 1
    else 0
  }

  ghost function Ahead(a: Accessors, x: Side, y: Side, k: int): nat {
    if k in x.atSender then 0
    else if Requests(a, x.out, k) > 0 then |x.out|
    else |y.out|
  }

  /** The request is nearer to being settled in x2 and y2. */
  ghost predicate Nearer(a: Accessors, x: Side, y: Side, x2: Side, y2: Side, k: int) {
    && Alive(x2, y2, k)
    && (Stage(a, x2, y2, k) < Stage(a, x, y, k)
        || (Stage(a, x2, y2, k) == Stage(a, x, y, k) && Ahead(a, x2, y2, k) < Ahead(a, x, y, k)))
  }

  /** The sender sends the request. */
  lemma HandIsNearer(codec: Codec, x: Side, y: Side, k: int)
    requires Half(codec, x, y) && Alive(x, y, k) && Stage(codec.accessors, x, y, k) == 5
    ensures Enabled(x, y, Hand(k, true))
    ensures Nearer(codec.accessors, x, y, Acting(codec, x, y, Hand(k, true)), y, k)
  {
    hide AskedId, RepliedId, Responses, Half;
    var a := codec.accessors;
    SentIsAsked(codec, x, y, k);
    CountsAppend(a, x.out, x.sent[k], k);
  }

  lemma QueueIsNotEmpty(a: Accessors, q: seq<Json>, k: int)
    ensures Requests(a, q, k) > 0 || Responses(a, q, k) > 0 ==> q != []
  {
  }

  lemma TakesRequest(codec: Codec, y: Side, message: Json, k: int)
    requires AskedId(codec.accessors, message) == Some(k) && k !in y.answered && k !in y.dropped
    ensures IsOpen(Taking(codec, y, message, true), k)
  {
    hide After, Settle;
  }

  /** The peer takes the next message of the queue the request is in. */
  lemma TakeIsNearer(codec: Codec, x: Side, y: Side, k: int)
    requires Half(codec, x, y) && Alive(x, y, k) && Stage(codec.accessors, x, y, k) == 4
    ensures Enabled(y, x, Take(true))
    ensures Nearer(codec.accessors, x, y, Meanwhile(x, Take(true)), Acting(codec, y, x, Take(true)), k)
  {
    hide AskedId, RepliedId, Responses, Half, Taking, Requests;
    var a, m, rest := codec.accessors, x.out, x.out;
    QueueIsNotEmpty(a, x.out, k);
    var x', y' := Meanwhile(x, Take(true)), Taking(codec, y, x.out[0], true);
    OneLeaves(a, x.out, k);
    TakingDrops(codec, y, x.out[0], true);
    if AskedId(a, x.out[0]) == Some(k) {
      RequestIsNew(codec, x, y, k);
      TakesRequest(codec, y, x.out[0], k);
    }
  }

  /** The handler answers. */
  lemma RespondIsNearer(codec: Codec, x: Side, y: Side, k: int, answer: Answer)
    requires Half(codec, x, y) && SideOk(y) && Alive(x, y, k) && Stage(codec.accessors, x, y, k) == 3
    ensures Enabled(y, x, Respond(k, answer))
    ensures Nearer(codec.accessors, x, y, x, Acting(codec, y, x, Respond(k, answer)), k)
  {
    hide SideOk, Half, Requests, Responses, CanMove, After, ReplyMessage;
    OpenCanGoOn(y, x, k);
  }

  lemma ReplyingIsAnswered(codec: Codec, x: Side, y: Side, k: int)
    requires Half(codec, x, y) && k in y.replying
    ensures k in y.answered
  {
    hide Requests, AskedId, RepliedId;
  }

  /** The sender of the peer sends the reply. */
  lemma HandReplyIsNearer(codec: Codec, x: Side, y: Side, k: int)
    requires codec.accessors.Lawful() && Half(codec, x, y) && SideOk(y)
    requires Alive(x, y, k) && Stage(codec.accessors, x, y, k) == 2
    ensures Enabled(y, x, HandReply(k, true, false))
    ensures Nearer(codec.accessors, x, y, x, Acting(codec, y, x, HandReply(k, true, false)), k)
  {
    hide SideOk, Half, Requests, Responses, CanMove, After, ReplyMessage, AskedId, RepliedId;
    OpenCanGoOn(y, x, k);
    ReplyingIsAnswered(codec, x, y, k);
    AnswerIsReply(codec, y, x, k);
    CountsAppend(codec.accessors, y.out, ReplyMessage(k, y.answered[k]), k);
  }

  /** The asking side takes the next message of the queue the reply is in. */
  lemma TakeReplyIsNearer(codec: Codec, x: Side, y: Side, k: int)
    requires Half(codec, x, y) && Alive(x, y, k) && Stage(codec.accessors, x, y, k) == 1
    ensures Enabled(x, y, Take(true))
    ensures Nearer(codec.accessors, x, y, Acting(codec, x, y, Take(true)), Meanwhile(y, Take(true)), k)
  {
    hide AskedId, RepliedId, Requests, Half, Taking;
    var a := codec.accessors;
    QueueIsNotEmpty(a, y.out, k);
    OneLeaves(a, y.out, k);
    TakingTouches(codec, x, y.out[0], true);
  }

  /** A request that has come to an end is settled. */
  lemma EndIsSettled(codec: Codec, x: Side, y: Side, k: int)
    requires Half(codec, x, y) && Alive(x, y, k) && Stage(codec.accessors, x, y, k) == 0
    ensures IsSettled(x, k)
  {
    hide Requests, Responses, AskedId, RepliedId;
    assert PlaceOk(codec.accessors, x, y, k);
  }

  lemma MeanwhileIsSame(x: Side, action: Action)
    ensures !action.Take? ==> Meanwhile(x, action) == x
  {
  }

  /** From every state of a run, a step brings a request that is alive and not settled nearer to that. */
  lemma NextStep(codec: Codec, n: Net, left: bool, k: int, answer: Answer) returns (s: Step)
    requires codec.accessors.Lawful() && Inv(codec, n)
    requires Alive(Asker(n, left), Peer(n, left), k) && !IsSettled(Asker(n, left), k)
    ensures var n' := Do(codec, n, s);
            Nearer(codec.accessors, Asker(n, left), Peer(n, left), Asker(n', left), Peer(n', left), k)
  {
    hide Half, SideOk, Requests, Responses, Alive, IsSettled, Nearer, Acting, Meanwhile, Enabled, Do;
    var x, y := Asker(n, left), Peer(n, left);
    var stage := Stage(codec.accessors, x, y, k);
    if stage == 5 {
      s := Step(left, Hand(k, true));
      HandIsNearer(codec, x, y, k);
      MeanwhileIsSame(y, s.action);
    } else if stage == 4 {
      s := Step(!left, Take(true));
      TakeIsNearer(codec, x, y, k);
    } else if stage == 3 {
      s := Step(!left, Respond(k, answer));
      RespondIsNearer(codec, x, y, k, answer);
      MeanwhileIsSame(x, s.action);
    } else if stage == 2 {
      s := Step(!left, HandReply(k, true, false));
      HandReplyIsNearer(codec, x, y, k);
      MeanwhileIsSame(x, s.action);
    } else if stage == 1 {
      s := Step(left, Take(true));
      TakeReplyIsNearer(codec, x, y, k);
    } else {
      EndIsSettled(codec, x, y, k);
      assert false;
    }
    StepOn(codec, n, s, left);
    StepOn(codec, n, s, !left);
  }

  lemma StepKeeps(codec: Codec, n: Net, s: Step)
    requires codec.accessors.Lawful() && Inv(codec, n)
    ensures Inv(codec, Do(codec, n, s))
  {
    hide Half, SideOk, Acting, Meanwhile, Enabled;
    if s.onLeft && Enabled(n.left, n.right, s.action) {
      ActKeeps(codec, n.left, n.right, s.action);
    } else if !s.onLeft && Enabled(n.right, n.left, s.action) {
      ActKeeps(codec, n.right, n.left, s.action);
    }
  }

  lemma {:induction false} CanBeSettled(codec: Codec, n: Net, left: bool, k: int, answer: Answer)
    returns (more: seq<Step>)
    requires codec.accessors.Lawful() && Inv(codec, n) && Alive(Asker(n, left), Peer(n, left), k)
    ensures IsSettled(Asker(Continue(codec, n, more), left), k)
    decreases Stage(codec.accessors, Asker(n, left), Peer(n, left), k),
              Ahead(codec.accessors, Asker(n, left), Peer(n, left), k)
  {
    hide Inv, Alive, IsSettled, Stage, Ahead, Do;
    if IsSettled(Asker(n, left), k) {
      more := [];
    } else {
      var s := NextStep(codec, n, left, k, answer);
      StepKeeps(codec, n, s);
      var rest := CanBeSettled(codec, Do(codec, n, s), left, k, answer);
      more := [s] + rest;
      assert more[1..] == rest;
    }
  }

  /** After every run, a request that was sent, and neither refused nor left without a reply, is settled
      by some continuation of the run. */
  lemma AliveCanBeSettled(codec: Codec, steps: seq<Step>, left: bool, k: int, answer: Answer)
    returns (more: seq<Step>)
    requires codec.accessors.Lawful()
    requires var n := Run(codec, steps); Alive(Asker(n, left), Peer(n, left), k)
    ensures IsSettled(Asker(Run(codec, steps + more), left), k)
  {
    hide Run, Inv, Alive, IsSettled;
    RunKeeps(codec, steps);
    more := CanBeSettled(codec, Run(codec, steps), left, k, answer);
    ContinueRun(codec, steps, more);
  }
}
