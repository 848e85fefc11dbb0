/** What follows from the effects of calls: they are determined, and nothing that foreign code calls is
    lost. */
module Effects {
  import opened Results
  import opened Json
  import opened Messages
  import opened Sessions

  // ---- One effect ----

  /** Foreign code that starts in one state can end in one state only. */
  lemma {:induction false} RunsOne(codec: Codec, a: Whole, f: Foreign, b: Whole, c: Whole)
    requires Runs(codec, a, f, b) && Runs(codec, a, f, c)
    ensures b == c
    decreases f, 1
  {
    hide Does;
    var s :| Stages(codec, f, s) && s[0] == a && s[|f.calls|] == b;
    var t :| Stages(codec, f, t) && t[0] == a && t[|f.calls|] == c;
    StagesAgree(codec, f, s, t, |f.calls|);
  }

  lemma {:induction false} StagesAgree(codec: Codec, f: Foreign, s: seq<Whole>, t: seq<Whole>, k: nat)
    requires Stages(codec, f, s) && Stages(codec, f, t) && s[0] == t[0] && k <= |f.calls|
    ensures s[k] == t[k]
    decreases f, 0, k
  {
    hide Does;
    if k == 0 {
    } else {
      StagesAgree(codec, f, s, t, k - 1);
      DoesOne(codec, s[k - 1], f.calls[k - 1], s[k], t[k]);
    }
  }

  /** A call that starts in one state can end in one state only. */
  lemma {:induction false} DoesOne(codec: Codec, a: Whole, call: Call, b: Whole, c: Whole)
    requires Does(codec, a, call, b) && Does(codec, a, call, c)
    ensures b == c
    decreases call, 2
  {
    hide Sends, Receives;
    match call
    case SendRequest(kind, params, sending) =>
      if !(kind.hasParams && params.None?) {
        var posted := a.(now := Posted(a.now, kind));
        SendsOne(codec, posted, RequestMessage(a.now.nextId, kind, Given(params)), sending, b, c);
      }
    case SendNotification(name, hasParams, params, sending) =>
      if !(hasParams && params.None?) {
        SendsOne(codec, a, NotificationMessage(name, hasParams, Given(params)), sending, b, c);
      }
    case Receive(message, handling, sending, afterwards) =>
      ReceivesOne(codec, a, message, handling, sending, afterwards, b, c);
    case _ =>
  }

  lemma {:induction false} SendsOne(codec: Codec, a: Whole, message: Json, sending: Foreign, b: Whole, c: Whole)
    requires Sends(codec, a, message, sending, b) && Sends(codec, a, message, sending, c)
    ensures b == c
    decreases sending, 2
  {
    hide Runs;
    if a.sender {
      RunsOne(codec, Noted(a, Handed(message)), sending, b, c);
    }
  }

  lemma {:induction false} ReceivesOne(codec: Codec, a: Whole, message: Option<Json>, handling: Foreign,
                                       sending: Foreign, afterwards: Foreign, b: Whole, c: Whole)
    requires Receives(codec, a, message, handling, sending, afterwards, b)
    requires Receives(codec, a, message, handling, sending, afterwards, c)
    ensures b == c
    decreases Call.Receive(message, handling, sending, afterwards), 1
  {
    hide Runs, Replies;
    match Classify(codec.accessors, message)
    case Request(id, name) =>
      if name in a.requests {
        var token := |a.now.log|;
        var asked := Noted(a, Asked(token, id, message.value));
        var h :| Runs(codec, asked, handling, h) &&
          if handling.verdict.Reply? then Replies(codec, h, token, id, name, message, handling, sending, afterwards, b)
          else b == h;
        var i :| Runs(codec, asked, handling, i) &&
          if handling.verdict.Reply? then Replies(codec, i, token, id, name, message, handling, sending, afterwards, c)
          else c == i;
        RunsOne(codec, asked, handling, h, i);
        if handling.verdict.Reply? {
          RepliesOne(codec, h, token, id, name, message, handling, sending, afterwards, b, c);
        }
      }
    case Notification(name) =>
      if name in a.notifications {
        RunsOne(codec, Noted(a, Noticed(message.value)), handling, b, c);
      }
    case _ =>
  }

  lemma {:induction false} RepliesOne(codec: Codec, a: Whole, token: nat, id: int, name: string, message: Option<Json>,
                                      handling: Foreign, sending: Foreign, afterwards: Foreign, b: Whole, c: Whole)
    requires handling.verdict.Reply?
    requires Replies(codec, a, token, id, name, message, handling, sending, afterwards, b)
    requires Replies(codec, a, token, id, name, message, handling, sending, afterwards, c)
    ensures b == c
    decreases Call.Receive(message, handling, sending, afterwards), 0
  {
    hide Sends, CallsAfter, ReplyMessage;
    var reply := ReplyMessage(id, handling.verdict.answer);
    var replying := Noted(a, Replying(token, reply));
    var s :| Sends(codec, replying, reply, sending, s) &&
      if a.sender && sending.verdict.Accept? then CallsAfter(codec, s, token, name, afterwards, b) else b == s;
    var t :| Sends(codec, replying, reply, sending, t) &&
      if a.sender && sending.verdict.Accept? then CallsAfter(codec, t, token, name, afterwards, c) else c == t;
    SendsOne(codec, replying, reply, sending, s, t);
    if a.sender && sending.verdict.Accept? {
      CallsAfterOne(codec, s, token, name, afterwards, b, c);
    }
  }

  lemma {:induction false} CallsAfterOne(codec: Codec, a: Whole, token: nat, name: string, afterwards: Foreign,
                                         b: Whole, c: Whole)
    requires CallsAfter(codec, a, token, name, afterwards, b) && CallsAfter(codec, a, token, name, afterwards, c)
    ensures b == c
    decreases afterwards, 2
  {
    hide Runs;
    var callback := CallsBack(a.requests, name);
    if callback {
      RunsOne(codec, Noted(Noted(a, Delivered(token, callback)), PostSent(token)), afterwards, b, c);
    }
  }

  // ---- Nothing is lost ----

  /** From a to b nothing was taken back: the record, the ids, the promises and the handlers. */
  ghost predicate Grows(a: Whole, b: Whole) {
    && a.now.log <= b.now.log && a.now.nextId <= b.now.nextId
    && a.now.promises.Keys <= b.now.promises.Keys
    && a.requests.Keys <= b.requests.Keys && a.notifications <= b.notifications
  }

  lemma GrowsOn(a: Whole, b: Whole, c: Whole)
    requires Grows(a, b) && Grows(b, c)
    ensures Grows(a, c)
  {
  }

  lemma NotedGrows(a: Whole, e: Event, b: Whole)
    requires Grows(Noted(a, e), b)
    ensures Grows(a, b) && e in b.now.log
  {
    assert b.now.log[|a.now.log|] == e;
  }

  /** What a call leaves behind, whatever else happens while it runs. */
  ghost predicate Done(codec: Codec, a: Whole, c: Call, b: Whole) {
    match c
    case SetSender(present) => b.sender == present
    case Register(name) => name in b.requests
    case RegisterNotification(name) => name in b.notifications
    case OnPostSend(name, present) => name in a.requests ==> name in b.requests && b.requests[name] == present
    case SendRequest(kind, params, _) =>
      var id := a.now.nextId;
      && id < b.now.nextId && Issued(id) in b.now.log
      && (!(kind.hasParams && params.None?) ==>
           && id in b.now.promises
           && (a.sender ==>
                exists m :: Handed(m) in b.now.log &&
                            IsRequest(m, id, kind.method_, if kind.hasParams then params else None)))
    case SendNotification(name, hasParams, params, _) =>
      !(hasParams && params.None?) && a.sender ==>
        exists m :: Handed(m) in b.now.log && IsNotification(m, name, if hasParams then params else None)
    case Receive(message, handling, _, _) =>
      match Classify(codec.accessors, message)
      case Malformed => true
      case Response(id) => id !in a.now.pending || Running(id, false) in b.now.log
      case Request(id, name) => name in a.requests ==> Asked(|a.now.log|, id, message.value) in b.now.log
      case Notification(name) => name in a.notifications ==> Noticed(message.value) in b.now.log
  }

  lemma {:induction false} RunsGrows(codec: Codec, a: Whole, f: Foreign, b: Whole)
    requires Runs(codec, a, f, b)
    ensures Grows(a, b)
    decreases f, 1
  {
    hide Does;
    var s :| Stages(codec, f, s) && s[0] == a && s[|f.calls|] == b;
    StagesGrow(codec, f, s, 0, |f.calls|);
  }

  lemma {:induction false} StagesGrow(codec: Codec, f: Foreign, s: seq<Whole>, i: nat, k: nat)
    requires Stages(codec, f, s) && i <= k <= |f.calls|
    ensures Grows(s[i], s[k])
    decreases f, 0, k
  {
    hide Does;
    if k == i {
    } else {
      StagesGrow(codec, f, s, i, k - 1);
      DoesGrows(codec, s[k - 1], f.calls[k - 1], s[k]);
    }
  }

  lemma GrowsItself(a: Whole)
    ensures Grows(a, a)
  {
  }

  lemma {:induction false} SendsGrows(codec: Codec, a: Whole, message: Json, sending: Foreign, b: Whole)
    requires Sends(codec, a, message, sending, b)
    ensures Grows(a, b) && (a.sender ==> Handed(message) in b.now.log)
    decreases sending, 2
  {
    hide Runs, Grows;
    if a.sender {
      RunsGrows(codec, Noted(a, Handed(message)), sending, b);
      NotedGrows(a, Handed(message), b);
    } else {
      GrowsItself(a);
    }
  }

  /** A call takes nothing back, and what it is for is done. */
  lemma {:induction false} DoesGrows(codec: Codec, a: Whole, c: Call, b: Whole)
    requires Does(codec, a, c, b)
    ensures Grows(a, b) && Done(codec, a, c, b)
    decreases c, 2
  {
    hide Sends, Receives, IsNotification, NotificationMessage;
    match c
    case SendRequest(kind, params, sending) => RequestGrows(codec, a, kind, params, sending, b);
    case SendNotification(name, hasParams, params, sending) =>
      if !(hasParams && params.None?) {
        SendsGrows(codec, a, NotificationMessage(name, hasParams, Given(params)), sending, b);
        NotificationHolds(name, hasParams, Given(params), NotificationMessage(name, hasParams, Given(params)));
      }
    case Receive(message, handling, sending, afterwards) =>
      ReceivesGrows(codec, a, message, handling, sending, afterwards, b);
    case _ =>
  }

  lemma {:induction false} RequestGrows(codec: Codec, a: Whole, kind: RequestKind, params: Option<Json>,
                                        sending: Foreign, b: Whole)
    requires Does(codec, a, Call.SendRequest(kind, params, sending), b)
    ensures Grows(a, b) && Done(codec, a, Call.SendRequest(kind, params, sending), b)
    decreases sending, 3
  {
    hide Sends, RequestMessage, IsRequest;
    var log, id := a.now.log, a.now.nextId;
    if kind.hasParams && params.None? {
      assert b.now.log[|log|] == Issued(id);
    } else {
      var posted := a.(now := Posted(a.now, kind));
      SendsGrows(codec, posted, RequestMessage(id, kind, Given(params)), sending, b);
      RequestHolds(id, kind, Given(params), RequestMessage(id, kind, Given(params)));
      assert posted.now.log[|log|] == Issued(id) && b.now.log[|log|] == Issued(id);
    }
  }

  lemma SettledGrows(a: Whole, id: int, settled: Result<Settlement>)
    ensures var b := a.(now := Settled(a.now, id, settled)); Grows(a, b) && Running(id, false) in b.now.log
  {
    var b := a.(now := Settled(a.now, id, settled));
    assert b.now.log[|a.now.log|] == Running(id, false);
  }

  lemma {:induction false} ReceivesGrows(codec: Codec, a: Whole, message: Option<Json>, handling: Foreign,
                                         sending: Foreign, afterwards: Foreign, b: Whole)
    requires Receives(codec, a, message, handling, sending, afterwards, b)
    ensures Grows(a, b) && Done(codec, a, Call.Receive(message, handling, sending, afterwards), b)
    decreases Call.Receive(message, handling, sending, afterwards), 1
  {
    hide Runs, Replies, Grows, Settle;
    match Classify(codec.accessors, message)
    case Malformed => GrowsItself(a);
    case Response(id) =>
      if id in a.now.pending {
        SettledGrows(a, id, Settle(codec, a.now.pending[id], message.value));
      } else {
        GrowsItself(a);
      }
    case Request(id, name) =>
      if name in a.requests {
        var token := |a.now.log|;
        var asked := Noted(a, Asked(token, id, message.value));
        var h :| Runs(codec, asked, handling, h) &&
          if handling.verdict.Reply? then Replies(codec, h, token, id, name, message, handling, sending, afterwards, b)
          else b == h;
        RunsGrows(codec, asked, handling, h);
        if handling.verdict.Reply? {
          RepliesGrows(codec, h, token, id, name, message, handling, sending, afterwards, b);
          GrowsOn(asked, h, b);
        }
        NotedGrows(a, Asked(token, id, message.value), b);
      } else {
        GrowsItself(a);
      }
    case Notification(name) =>
      if name in a.notifications {
        RunsGrows(codec, Noted(a, Noticed(message.value)), handling, b);
        NotedGrows(a, Noticed(message.value), b);
      } else {
        GrowsItself(a);
      }
  }

  lemma {:induction false} RepliesGrows(codec: Codec, a: Whole, token: nat, id: int, name: string,
                                        message: Option<Json>, handling: Foreign, sending: Foreign,
                                        afterwards: Foreign, b: Whole)
    requires handling.verdict.Reply?
    requires Replies(codec, a, token, id, name, message, handling, sending, afterwards, b)
    ensures Grows(a, b)
    decreases Call.Receive(message, handling, sending, afterwards), 0
  {
    hide Sends, CallsAfter, Grows, ReplyMessage;
    var reply := ReplyMessage(id, handling.verdict.answer);
    var replying := Noted(a, Replying(token, reply));
    var s :| Sends(codec, replying, reply, sending, s) &&
      if a.sender && sending.verdict.Accept? then CallsAfter(codec, s, token, name, afterwards, b) else b == s;
    SendsGrows(codec, replying, reply, sending, s);
    if a.sender && sending.verdict.Accept? {
      CallsAfterGrows(codec, s, token, name, afterwards, b);
      GrowsOn(replying, s, b);
    }
    NotedGrows(a, Replying(token, reply), b);
  }

  lemma {:induction false} CallsAfterGrows(codec: Codec, a: Whole, token: nat, name: string, afterwards: Foreign,
                                           b: Whole)
    requires CallsAfter(codec, a, token, name, afterwards, b)
    ensures Grows(a, b)
    decreases afterwards, 2
  {
    hide Runs, Grows;
    var delivered := Noted(a, Delivered(token, CallsBack(a.requests, name)));
    if CallsBack(a.requests, name) {
      RunsGrows(codec, Noted(delivered, PostSent(token)), afterwards, b);
      NotedGrows(delivered, PostSent(token), b);
    } else {
      GrowsItself(delivered);
    }
    NotedGrows(a, Delivered(token, CallsBack(a.requests, name)), b);
  }

  /** Every call that foreign code makes is made, from a state in between, and what it is for is done
      there; and nothing of it is taken back by the end. */
  lemma EveryCallIsMade(codec: Codec, a: Whole, f: Foreign, b: Whole, k: nat) returns (before: Whole, after: Whole)
    requires Runs(codec, a, f, b) && k < |f.calls|
    ensures Grows(a, before) && Grows(after, b)
    ensures Does(codec, before, f.calls[k], after) && Done(codec, before, f.calls[k], after)
  {
    hide Does, Done, Grows;
    var s :| Stages(codec, f, s) && s[0] == a && s[|f.calls|] == b;
    before, after := s[k], s[k + 1];
    StagesGrow(codec, f, s, 0, k);
    StagesGrow(codec, f, s, k + 1, |f.calls|);
    DoesGrows(codec, before, f.calls[k], after);
  }

  ghost function RequestsAmong(calls: seq<Call>): nat {
    if calls == [] then 0
    else RequestsAmong(calls[..|calls| - 1]) + if calls[|calls| - 1].SendRequest? then 1 else 0
  }

  /** An id is issued for each request that foreign code sends, and for those sent meanwhile. */
  lemma {:induction false} StagesIssue(codec: Codec, f: Foreign, s: seq<Whole>, k: nat)
    requires Stages(codec, f, s) && k <= |f.calls|
    ensures s[0].now.nextId + RequestsAmong(f.calls[..k]) <= s[k].now.nextId
  {
    hide Does;
    if k == 0 {
    } else {
      StagesIssue(codec, f, s, k - 1);
      DoesGrows(codec, s[k - 1], f.calls[k - 1], s[k]);
      assert f.calls[..k][..k - 1] == f.calls[..k - 1];
    }
  }

  lemma RunsIssue(codec: Codec, a: Whole, f: Foreign, b: Whole)
    requires Runs(codec, a, f, b)
    ensures a.now.nextId + RequestsAmong(f.calls) <= b.now.nextId
  {
    hide Does;
    var s :| Stages(codec, f, s) && s[0] == a && s[|f.calls|] == b;
    StagesIssue(codec, f, s, |f.calls|);
    assert f.calls[..|f.calls|] == f.calls;
  }
}
