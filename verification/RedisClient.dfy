/** The command queue of the cluster client (redisInstance_base.cpp, instance_cli.cpp): one command is
    under way at a time, and a MOVED reply sends it again to another server. */
module RedisClient {
  import opened Wrappers

  /** stCacheMsg; an id is drawn at random for every command. */
  datatype Msg = Msg(str: string, id: int)

  /** What the event loop delivers. A reply is either an answer or MOVED with an address. */
  datatype Event =
    | Submit(str: string, id: int)
    | Run
    | Answer
    | Moved(ip: string, port: int)
    | Disconnect

  // ---------- what a sequence of events comes to ----------

  function Submissions(events: seq<Event>): seq<Msg> {
    if events == [] then []
    else
      var e := events[|events| - 1];
      Submissions(events[..|events| - 1]) + (if e.Submit? then [Msg(e.str, e.id)] else [])
  }

  function Answers(events: seq<Event>): nat {
    if events == [] then 0 else Answers(events[..|events| - 1]) + (if events[|events| - 1].Answer? then 1 else 0)
  }

  /** How many commands wait for an answer. */
  function Waiting(events: seq<Event>): int { |Submissions(events)| - Answers(events) }

  /** A command is under way: it went out at a Run, and neither a reply nor a disconnect came since. */
  predicate Busy(events: seq<Event>) {
    events != []
    && var past := events[..|events| - 1];
       match events[|events| - 1]
       case Submit(_, _) => Busy(past)
       case Run => Busy(past) || Waiting(past) > 0
       case _ => false
  }

  /** The address of a MOVED that no disconnect has followed. */
  function Redirect(events: seq<Event>): Option<Address> {
    if events == [] then None
    else
      match events[|events| - 1]
      case Moved(ip, port) => if ip == "" then None else Some(Address(ip, port))
      case Disconnect => None
      case _ => Redirect(events[..|events| - 1])
  }

  datatype Address = Address(ip: string, port: int)

  /** Where the client is connected: to the first server, or where the last disconnect led. */
  function Server(events: seq<Event>, first: Address): Address {
    if events == [] then first
    else
      var past := events[..|events| - 1];
      if !events[|events| - 1].Disconnect? then Server(past, first)
      else if Redirect(past).Some? then Redirect(past).value
      else Address("", 0)
  }

  /** The commands sent: at every Run that finds no command under way, the first one without an answer. */
  function Sent(events: seq<Event>): seq<Msg> {
    if events == [] then []
    else
      var past := events[..|events| - 1];
      if events[|events| - 1].Run? && !Busy(past) && Waiting(past) > 0
      then Sent(past) + [Submissions(past)[Answers(past)]]
      else Sent(past)
  }

  /** Can the event happen, as assumed of the server and the connection: ids are not 0, a reply comes
      only to a command under way, and a disconnect follows a MOVED that named an address, or finds no command. */
  predicate Possible(past: seq<Event>, e: Event) {
    match e
    case Submit(_, id) => id != 0
    case Run => true
    case Answer => Busy(past)
    case Moved(_, _) => Busy(past)
    case Disconnect => Redirect(past).Some? || Waiting(past) == 0
  }

  predicate AllPossible(events: seq<Event>) {
    forall i | 0 <= i < |events| :: Possible(events[..i], events[i])
  }

  lemma Last(past: seq<Event>, e: Event)
    ensures (past + [e])[..|past + [e]| - 1] == past && (past + [e])[|past + [e]| - 1] == e
  {}

  lemma PossibleNext(past: seq<Event>, e: Event)
    requires AllPossible(past) && Possible(past, e)
    ensures AllPossible(past + [e])
  {
    forall i | 0 <= i < |past + [e]| ensures Possible((past + [e])[..i], (past + [e])[i]) {
      if i < |past| { assert (past + [e])[..i] == past[..i]; } else { Last(past, e); }
    }
  }

  /** What the events come to, after one more. */
  lemma Happens(past: seq<Event>, e: Event, first: Address)
    requires AllPossible(past) && Possible(past, e)
    ensures AllPossible(past + [e])
    ensures Submissions(past + [e]) == Submissions(past) + (if e.Submit? then [Msg(e.str, e.id)] else [])
    ensures Answers(past + [e]) == Answers(past) + (if e.Answer? then 1 else 0)
    ensures Busy(past + [e]) <==> if e.Submit? then Busy(past) else e.Run? && (Busy(past) || Waiting(past) > 0)
    ensures e.Submit? || e.Run? || e.Answer? ==> Redirect(past + [e]) == Redirect(past)
    ensures e.Moved? ==> Redirect(past + [e]) == if e.ip == "" then None else Some(Address(e.ip, e.port))
    ensures e.Disconnect? ==> Redirect(past + [e]) == None
    ensures !e.Disconnect? ==> Server(past + [e], first) == Server(past, first)
    ensures e.Disconnect? ==>
              Server(past + [e], first) == if Redirect(past).Some? then Redirect(past).value else Address("", 0)
    ensures !e.Run? || Busy(past) || Waiting(past) <= 0 ==> Sent(past + [e]) == Sent(past)
    ensures e.Run? && !Busy(past) && 0 < Waiting(past) <= |Submissions(past)| ==>
              Sent(past + [e]) == Sent(past) + [Submissions(past)[Answers(past)]]
  {
    PossibleNext(past, e);
    Last(past, e);
    hide AllPossible, Possible;
  }

  /** A command is under way exactly if some Run found one waiting, and only submissions and Runs came since. */
  lemma {:induction false} BusyIff(events: seq<Event>)
    ensures Busy(events) <==> exists i :: GoesOn(events, i)
  {
    if events != [] {
      var n := |events| - 1;
      var past := events[..n];
      BusyIff(past);
      forall i | GoesOn(past, i) && (events[n].Submit? || events[n].Run?) ensures GoesOn(events, i) {
        assert events[..i] == past[..i];
      }
      forall i | GoesOn(events, i) && i < n ensures GoesOn(past, i) { assert events[..i] == past[..i]; }
      if events[n].Run? && Waiting(past) > 0 { assert GoesOn(events, n); }
    }
  }

  ghost predicate GoesOn(events: seq<Event>, i: int) {
    && 0 <= i < |events| && events[i].Run? && Waiting(events[..i]) > 0
    && forall j | i < j < |events| :: events[j].Submit? || events[j].Run?
  }

  lemma {:induction false} WaitingNat(events: seq<Event>)
    requires AllPossible(events)
    ensures 0 <= Waiting(events) && (Busy(events) ==> Waiting(events) > 0)
    decreases |events|
  {
    if events != [] {
      var n := |events| - 1;
      var past := events[..n];
      assert AllPossible(past) by {
        forall i | 0 <= i < n ensures Possible(past[..i], past[i]) { assert past[..i] == events[..i]; }
      }
      WaitingNat(past);
      assert Possible(events[..n], events[n]);
    }
  }

  lemma {:induction false} RedirectStays(a: seq<Event>, ip: string, port: int, b: seq<Event>)
    requires ip != "" && forall e | e in b :: !e.Moved? && !e.Disconnect?
    ensures Redirect(a + [Moved(ip, port)] + b) == Some(Address(ip, port))
    decreases |b|
  {
    var m := a + [Moved(ip, port)];
    if b == [] {
      assert m + b == m;
      Last(a, Moved(ip, port));
    } else {
      var c, e := b[..|b| - 1], b[|b| - 1];
      RedirectStays(a, ip, port, c);
      assert m + b == (m + c) + [e];
      Last(m + c, e);
    }
  }

  /** The client is connected to the address of the last MOVED that a disconnect has followed. */
  lemma {:induction false} ServerIs(
    a: seq<Event>, ip: string, port: int, b: seq<Event>, c: seq<Event>, first: Address)
    requires ip != "" && (forall e | e in b :: !e.Moved? && !e.Disconnect?) && forall e | e in c :: !e.Disconnect?
    ensures Server(a + [Moved(ip, port)] + b + [Disconnect] + c, first) == Address(ip, port)
    decreases |c|
  {
    var m := a + [Moved(ip, port)] + b;
    if c == [] {
      assert m + [Disconnect] + c == m + [Disconnect];
      Last(m, Disconnect);
      RedirectStays(a, ip, port, b);
    } else {
      var d, e := c[..|c| - 1], c[|c| - 1];
      ServerIs(a, ip, port, b, d, first);
      assert m + [Disconnect] + c == (m + [Disconnect] + d) + [e];
      Last(m + [Disconnect] + d, e);
    }
  }

  /** A Run and an Answer for each of n commands. */
  function Drain(n: nat): seq<Event> {
    if n == 0 then [] else [Run, Answer] + Drain(n - 1)
  }

  /** The queue can always be emptied: whatever has happened, a Run and an Answer for each waiting command are
      possible, and after them every command has its answer. */
  lemma {:induction false} Drained(events: seq<Event>)
    requires AllPossible(events)
    ensures Waiting(events) >= 0
    ensures var all := events + Drain(Waiting(events));
            AllPossible(all) && Waiting(all) == 0 && Submissions(all) == Submissions(events)
    decreases Waiting(events)
  {
    WaitingNat(events);
    var n := Waiting(events);
    if n == 0 {
      assert events + Drain(0) == events;
    } else {
      var e1 := events + [Run];
      var e2 := e1 + [Answer];
      Last(events, Run);
      Last(e1, Answer);
      PossibleNext(events, Run);
      PossibleNext(e1, Answer);
      assert Submissions(e2) == Submissions(events) && Answers(e2) == Answers(events) + 1;
      Drained(e2);
      assert e2 + Drain(n - 1) == events + Drain(n);
    }
  }

  lemma SentGrows(events: seq<Event>)
    requires events != []
    ensures forall m | m in Sent(events[..|events| - 1]) :: m in Sent(events)
  {
    hide Busy, Submissions, Answers;
  }

  /** Every command goes out before it is answered, and the one under way is the last that went out. */
  lemma {:induction false} AnsweredWereSent(events: seq<Event>)
    requires AllPossible(events)
    ensures 0 <= Waiting(events) && (Busy(events) ==> Waiting(events) > 0)
    ensures var s := Submissions(events); var k := Answers(events);
            && (forall i | 0 <= i < k :: s[i] in Sent(events))
            && (Busy(events) ==> Sent(events) != [] && Sent(events)[|Sent(events)| - 1] == s[k])
    decreases |events|
  {
    WaitingNat(events);
    if events != [] {
      var n := |events| - 1;
      var past := events[..n];
      assert AllPossible(past) by {
        forall i | 0 <= i < n ensures Possible(past[..i], past[i]) { assert past[..i] == events[..i]; }
      }
      AnsweredWereSent(past);
      assert Possible(events[..n], events[n]);
      forall i | 0 <= i < Answers(events) ensures Submissions(events)[i] in Sent(events) {
        assert Submissions(events)[i] == Submissions(past)[i];
        if i == Answers(past) {
          assert events[n].Answer? && Busy(past);
          assert Sent(past)[|Sent(past)| - 1] in Sent(past);
        }
        SentGrows(events);
        assert Submissions(past)[i] in Sent(past);
      }
    }
  }

  // ---------- the client ----------

  class RedisInstance {
    var cacheMsg: seq<Msg>
    var doMsgId: int
    var ip: string
    var port: int
    var newIp: string
    var newPort: int
    ghost var submitted: seq<Msg>
    ghost var completed: seq<Msg>
    ghost var sent: seq<Msg>
    ghost var past: seq<Event>
    ghost var first: Address

    /** Nothing is lost, duplicated or reordered: what was answered, and then the queue, is what was
        submitted. A command that is under way is the first of the queue, and the last that was sent. */
    ghost predicate Valid()
      reads this
    {
      && submitted == completed + cacheMsg
      && (doMsgId != 0 ==> cacheMsg != [] && cacheMsg[0].id == doMsgId && sent != [] && sent[|sent| - 1] == cacheMsg[0])
      && (forall m | m in submitted :: m.id != 0)
      && Follows()
    }

    /** The state is what the events so far come to. */
    ghost predicate Follows()
      reads this
    {
      && AllPossible(past)
      && submitted == Submissions(past) && |completed| == Answers(past) && sent == Sent(past)
      && (doMsgId != 0 <==> Busy(past))
      && Redirect(past) == (if newIp == "" then None else Some(Address(newIp, newPort)))
      && Address(ip, port) == Server(past, first)
    }

    constructor (ip: string, port: int)
      ensures Valid() && submitted == completed == sent == [] && newIp == "" && doMsgId == 0
      ensures past == [] && first == Address(ip, port)
    {
      cacheMsg, doMsgId, newIp, newPort := [], 0, "", 0;
      this.ip, this.port := ip, port;
      submitted, completed, sent, past, first := [], [], [], [], Address(ip, port);
    }

    method AsynCommand(str: string, id: int)
      requires Valid() && id != 0
      modifies `cacheMsg, `submitted, `past
      ensures past == old(past) + [Submit(str, id)]
      ensures Valid() && submitted == old(submitted) + [Msg(str, id)] && cacheMsg == old(cacheMsg) + [Msg(str, id)]
    {
      hide Submissions, Answers, Busy, Redirect, Server, Sent, AllPossible;
      cacheMsg := cacheMsg + [Msg(str, id)];
      submitted := submitted + [Msg(str, id)];
      Happens(past, Submit(str, id), first);
      past := past + [Submit(str, id)];
      assert completed + (old(cacheMsg) + [Msg(str, id)]) == (completed + old(cacheMsg)) + [Msg(str, id)];
    }

    /** The first command of the queue goes out, unless one is under way. */
    method StartDoMsg()
      requires Valid()
      modifies `doMsgId, `sent, `past
      ensures past == old(past) + [Run]
      ensures Valid() && (cacheMsg != [] ==> doMsgId == cacheMsg[0].id)
      ensures sent == if old(doMsgId) == 0 && cacheMsg != [] then old(sent) + [cacheMsg[0]] else old(sent)
      ensures cacheMsg == [] ==> doMsgId == old(doMsgId)
    {
      hide Submissions, Answers, Busy, Redirect, Server, Sent, AllPossible;
      Happens(past, Run, first);
      past := past + [Run];
      if |cacheMsg| == 0 || doMsgId != 0 { return; }
      assert cacheMsg[0] in submitted && cacheMsg[0] == submitted[|completed|];
      doMsgId := cacheMsg[0].id;
      sent := sent + [cacheMsg[0]];
    }

    /** A reply that is not MOVED completes the command that is under way. */
    method GetMsgback()
      requires Valid() && doMsgId != 0
      modifies `doMsgId, `cacheMsg, `completed, `past
      ensures past == old(past) + [Answer]
      ensures Valid() && doMsgId == 0 && cacheMsg == old(cacheMsg)[1..]
              && completed == old(completed) + [old(cacheMsg)[0]]
    {
      hide Submissions, Answers, Busy, Redirect, Server, Sent, AllPossible;
      doMsgId := 0;
      var st := cacheMsg[0];
      cacheMsg := cacheMsg[1..];
      completed := completed + [st];
      Happens(past, Answer, first);
      past := past + [Answer];
      assert old(cacheMsg) == [st] + cacheMsg;
    }

    /** A MOVED reply: the command goes back to the front, and the connection is to be closed. */
    method GetMoved(strNewIp: string, strNewPort: int)
      requires Valid() && doMsgId != 0
      modifies `doMsgId, `cacheMsg, `newIp, `newPort, `past
      ensures past == old(past) + [Moved(strNewIp, strNewPort)]
      ensures Valid() && doMsgId == 0 && cacheMsg == old(cacheMsg) && newIp == strNewIp && newPort == strNewPort
    {
      hide Submissions, Answers, Busy, Redirect, Server, Sent, AllPossible;
      doMsgId := 0;
      var st := cacheMsg[0];
      cacheMsg := cacheMsg[1..];
      newIp, newPort := strNewIp, strNewPort;
      cacheMsg := [st] + cacheMsg;
      Happens(past, Moved(strNewIp, strNewPort), first);
      past := past + [Moved(strNewIp, strNewPort)];
    }

    method Reset()
      modifies `doMsgId, `ip, `port, `cacheMsg, `newIp, `newPort
      ensures doMsgId == 0 && cacheMsg == [] && ip == "" && port == 0 && newIp == "" && newPort == 0
    {
      doMsgId := 0;
      ip, port := "", 0;
      cacheMsg := [];
      newIp, newPort := "", 0;
    }

    /** After a MOVED the queue survives the new connection. Otherwise it is dropped: the connection
        closes without loss exactly when it was told to move, or no command is waiting. */
    method DisconnectCallback() returns (lossless: bool)
      requires Valid()
      modifies `doMsgId, `ip, `port, `cacheMsg, `newIp, `newPort, `past
      ensures past == if lossless then old(past) + [Disconnect] else old(past)
      ensures lossless <==> submitted == completed + cacheMsg
      ensures lossless <==> old(newIp) != "" || old(cacheMsg) == []
      ensures lossless ==> Valid()
      ensures doMsgId == 0 && newIp == ""
      ensures old(newIp) != "" ==> ip == old(newIp) && port == old(newPort) && cacheMsg == old(cacheMsg)
    {
      hide Submissions, Answers, Busy, Redirect, Server, Sent, AllPossible;
      var strIp, newport, curMsg := newIp, newPort, cacheMsg;
      Reset();
      if |strIp| > 0 {
        ip := strIp;
        port := newport;
        cacheMsg := curMsg;
      }
      lossless := |strIp| > 0 || curMsg == [];
      assert |completed + curMsg| == |completed| + |curMsg|;
      if lossless {
        Happens(past, Disconnect, first);
        past := past + [Disconnect];
      }
    }

    /** Is the event expected now? */
    predicate Expected(e: Event)
      reads this
    {
      match e
      case Submit(_, id) => id != 0
      case Run => true
      case Answer => doMsgId != 0
      case Moved(_, _) => doMsgId != 0
      case Disconnect => newIp != "" || cacheMsg == []
    }

    /** Events are expected exactly if they are possible after those that have happened. */
    lemma ExpectedIff(e: Event)
      requires Valid()
      ensures Expected(e) <==> Possible(past, e)
    {
      assert |submitted| == |completed| + |cacheMsg|;
    }

    method Handle(e: Event)
      requires Valid() && Expected(e)
      modifies this
      ensures Valid() && past == old(past) + [e] && first == old(first)
      ensures old(completed) <= completed && old(submitted) <= submitted && old(sent) <= sent
      ensures submitted == old(submitted) + (if e.Submit? then [Msg(e.str, e.id)] else [])
      ensures |completed| == |old(completed)| + (if e.Answer? then 1 else 0)
    {
      match e
      case Submit(str, id) => AsynCommand(str, id);
      case Run => StartDoMsg();
      case Answer => GetMsgback();
      case Moved(ip, port) => GetMoved(ip, port);
      case Disconnect => var _ := DisconnectCallback();
    }

    /** Any sequence of events, as far as they are possible. What has been submitted, answered and sent, what waits,
        and where the client is connected, is what the events say; across any number of redirects the answers so far
        are to the first commands submitted, in their order. */
    method Loop(events: seq<Event>) returns (handled: nat)
      requires Valid() && past == []
      modifies this
      ensures Valid() && handled <= |events| && first == old(first)
      ensures AllPossible(events[..handled])
      ensures handled < |events| ==> !Possible(events[..handled], events[handled])
      ensures submitted == Submissions(events[..handled]) && completed <= submitted
      ensures |completed| == Answers(events[..handled]) && cacheMsg == submitted[|completed|..]
      ensures sent == Sent(events[..handled]) && (doMsgId != 0 <==> Busy(events[..handled]))
      ensures Address(ip, port) == Server(events[..handled], first)
    {
      handled := 0;
      ghost var first0 := first;
      while handled < |events| && Expected(events[handled])
        invariant Valid() && handled <= |events| && past == events[..handled] && first == first0
      {
        Handle(events[handled]);
        handled := handled + 1;
      }
      if handled < |events| { ExpectedIff(events[handled]); }
    }
  }
}
