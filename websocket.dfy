/**
 * The subscriber registry and fan-out of `WebSocketHandler.java`, single-threaded:
 * a list of sessions, events serialised once and sent to every open session in
 * list order, with per-session send failures swallowed.
 */
module WebSocket {
  import opened Common
  import opened Json

  /** The acknowledgement a new subscriber is sent. */
  const Welcome := "Connected to ML Hybrid System WebSocket"

  /**
   * A subscriber's channel. Its state belongs to the web-socket container, not
   * to the handler: `open` is what `isOpen()` answers, and `broken` says that
   * `sendMessage` throws an IOException.
   */
  class Session {
    const id: string
    var open: bool
    var broken: bool

    constructor (id: string, open: bool, broken: bool)
      ensures this.id == id && this.open == open && this.broken == broken
    {
      this.id, this.open, this.broken := id, open, broken;
    }
  }

  /** One text frame that reached a subscriber. */
  datatype Delivery = Delivery(to: Session, text: string)

  /** A send to `s` goes through: the session is open and its transport does not fail. */
  predicate Accepts(s: Session)
    reads s
  {
    s.open && !s.broken
  }

  /** The frames one pass over `ss` delivers, in list order; a refused send yields nothing. */
  function Fanout(ss: seq<Session>, text: string): seq<Delivery>
    reads ss
  {
    if ss == [] then []
    else
      var last := ss[|ss| - 1];
      Fanout(ss[..|ss| - 1], text) + (if Accepts(last) then [Delivery(last, text)] else [])
  }

  /** What broadcasting `e` delivers: nothing when serialisation fails, else one pass over `ss`. */
  function Transmitted(encode: Event -> Option<string>, ss: seq<Session>, e: Event): seq<Delivery>
    reads ss
  {
    match encode(e)
    case None => []
    case Some(text) => Fanout(ss, text)
  }

  /** `List.remove(Object)`: drops the first occurrence of `s`, if any. */
  function RemoveFirst(ss: seq<Session>, s: Session): (r: seq<Session>)
    ensures |r| == if s in ss then |ss| - 1 else |ss|
  {
    if ss == [] then []
    else if ss[0] == s then ss[1..]
    else [ss[0]] + RemoveFirst(ss[1..], s)
  }

  /** The number of frames in `log` that went to `s`. */
  function Copies(log: seq<Delivery>, s: Session): nat
  {
    if log == [] then 0
    else Copies(log[..|log| - 1], s) + (if log[|log| - 1].to == s then 1 else 0)
  }

  /** `Map.of("taskId", …, "status", …, "data", …, "timestamp", …)` in `sendTaskUpdate`. */
  function TaskUpdate(taskId: string, status: string, data: Value, now: int): (e: Event)
    ensures e.Keys == {"taskId", "status", "data", "timestamp"}
    ensures e["taskId"] == Text(taskId) && e["status"] == Text(status) && e["data"] == data
  {
    map["taskId" := Text(taskId), "status" := Text(status), "data" := data, "timestamp" := Int(now)]
  }

  class WebSocketHandler {
    /** The registered sessions, in registration order (duplicates allowed, as in a list). */
    var sessions: seq<Session>
    /** Every frame that reached a subscriber, in the order it was sent. */
    var sent: seq<Delivery>
    /** Every event map handed to the hub for broadcasting. */
    ghost var published: seq<Event>
    /** Jackson's `writeValueAsString`; `None` is a JsonProcessingException. */
    const encode: Event -> Option<string>

    constructor (encode: Event -> Option<string>)
      ensures this.encode == encode
      ensures sessions == [] && sent == [] && published == []
    {
      this.encode := encode;
      sessions, sent, published := [], [], [];
    }

    /** Registers `s`, then sends it the welcome text; a failed send is only logged. */
    method AfterConnectionEstablished(s: Session)
      modifies this`sessions, this`sent
      ensures sessions == old(sessions) + [s]
      ensures sent == old(sent) + Fanout([s], Welcome)
    {
      sessions := sessions + [s];
      if Accepts(s) {
        sent := sent + [Delivery(s, Welcome)];
      }
      assert [s][..0] == [];
    }

    /** Unregisters the first occurrence of `s`; an unknown session changes nothing. */
    method AfterConnectionClosed(s: Session)
      modifies this`sessions
      ensures sessions == RemoveFirst(old(sessions), s)
    {
      sessions := RemoveFirst(sessions, s);
    }

    /** A transport error is only logged: the session stays registered until it is closed. */
    method HandleTransportError(s: Session, error: string)
      ensures sessions == old(sessions) && sent == old(sent)
    {
    }

    /** An inbound text frame is only logged. */
    method HandleTextMessage(s: Session, payload: string)
      ensures sessions == old(sessions) && sent == old(sent)
    {
    }

    /** `sendUpdate`: a plain text frame to every open session. */
    method SendUpdate(message: string)
      modifies this`sent
      ensures sent == old(sent) + Fanout(sessions, message)
    {
      Deliver(message);
    }

    /**
     * `sendTaskUpdate`: builds the four-key event with `Map.of`, which throws a
     * NullPointerException for a null value; the exception reaches the caller
     * and nothing is sent. Otherwise the event is broadcast like `broadcastMessage`.
     */
    method SendTaskUpdate(taskId: string, status: string, data: Value, now: int) returns (raised: bool)
      modifies this`sent, this`published
      ensures raised <==> data == Null
      ensures raised ==> sent == old(sent) && published == old(published)
      ensures !raised ==> published == old(published) + [TaskUpdate(taskId, status, data, now)]
      ensures !raised ==> sent == old(sent) + Transmitted(encode, sessions, TaskUpdate(taskId, status, data, now))
    {
      if data == Null {
        return true;
      }
      raised := false;
      BroadcastMessage(TaskUpdate(taskId, status, data, now));
    }

    /**
     * `broadcastMessage`: serialises once; on failure logs and returns, otherwise
     * sends the same text to every open session of the list, skipping closed ones
     * and swallowing each session's send failure.
     */
    method BroadcastMessage(message: Event)
      modifies this`sent, this`published
      ensures published == old(published) + [message]
      ensures sent == old(sent) + Transmitted(encode, sessions, message)
    {
      published := published + [message];
      match encode(message)
      case None =>
      case Some(json) =>
        Deliver(json);
    }

    /** The send loop shared by the three broadcasts; it iterates over a snapshot of the list. */
    method Deliver(text: string)
      modifies this`sent
      ensures sent == old(sent) + Fanout(sessions, text)
    {
      var snapshot := sessions;
      var i := 0;
      while i < |snapshot|
        invariant 0 <= i <= |snapshot|
        invariant sent == old(sent) + Fanout(snapshot[..i], text)
      {
        var session := snapshot[i];
        assert snapshot[..i + 1][..i] == snapshot[..i];
        if session.open {
          if !session.broken {
            sent := sent + [Delivery(session, text)];
          }
        }
        i := i + 1;
      }
      assert snapshot[..i] == snapshot;
    }
  }

  /** Fan-out over a concatenated list is the fan-out over each part, in order. */
  lemma {:induction false} FanoutAppend(a: seq<Session>, b: seq<Session>, text: string)
    ensures Fanout(a + b, text) == Fanout(a, text) + Fanout(b, text)
    decreases |b|
  {
    if b == [] {
      assert a + b == a;
    } else {
      var last := b[|b| - 1];
      assert (a + b)[..|a + b| - 1] == a + b[..|b| - 1];
      FanoutAppend(a, b[..|b| - 1], text);
    }
  }

  /** Every frame of a fan-out carries the serialised text and went to a registered, accepting session. */
  lemma {:induction false} FanoutOnlyToAccepting(ss: seq<Session>, text: string)
    ensures forall k :: 0 <= k < |Fanout(ss, text)| ==>
              Fanout(ss, text)[k].text == text && Fanout(ss, text)[k].to in ss && Accepts(Fanout(ss, text)[k].to)
  {
    if ss != [] {
      FanoutOnlyToAccepting(ss[..|ss| - 1], text);
    }
  }

  /**
   * Exactly one copy per registration reaches an accepting session, and none
   * reaches a closed or failing one: a failure at one session does not stop
   * delivery to the others.
   */
  lemma {:induction false} CopiesPerSession(ss: seq<Session>, text: string, s: Session)
    ensures Copies(Fanout(ss, text), s) == if Accepts(s) then multiset(ss)[s] else 0
  {
    if ss != [] {
      var init, last := ss[..|ss| - 1], ss[|ss| - 1];
      assert ss == init + [last];
      CopiesPerSession(init, text, s);
      var tail := if Accepts(last) then [Delivery(last, text)] else [];
      CopiesAppend(Fanout(init, text), tail, s);
      if Accepts(last) {
        assert Copies(tail, s) == (if last == s then 1 else 0) by {
          assert tail[..0] == [];
        }
      }
    }
  }

  lemma {:induction false} CopiesAppend(a: seq<Delivery>, b: seq<Delivery>, s: Session)
    ensures Copies(a + b, s) == Copies(a, s) + Copies(b, s)
    decreases |b|
  {
    if b == [] {
      assert a + b == a;
    } else {
      assert (a + b)[..|a + b| - 1] == a + b[..|b| - 1];
      CopiesAppend(a, b[..|b| - 1], s);
    }
  }

  /** Closing a session that is not registered leaves the list as it was. */
  lemma {:induction false} RemoveAbsent(ss: seq<Session>, s: Session)
    requires s !in ss
    ensures RemoveFirst(ss, s) == ss
  {
    if ss != [] {
      RemoveAbsent(ss[1..], s);
    }
  }

  /** The position of the first registration of `s`. */
  function FirstIndex(ss: seq<Session>, s: Session): (k: nat)
    requires s in ss
    ensures k < |ss| && ss[k] == s && s !in ss[..k]
  {
    if ss[0] == s then 0
    else
      var k := FirstIndex(ss[1..], s);
      assert ss[..k + 1] == [ss[0]] + ss[1..][..k];
      k + 1
  }

  /** Closing a registered session cuts out its first registration and keeps the others in order. */
  lemma {:induction false} RemovePresent(ss: seq<Session>, s: Session)
    requires s in ss
    ensures var k := FirstIndex(ss, s); RemoveFirst(ss, s) == ss[..k] + ss[k + 1..]
  {
    if ss[0] != s {
      RemovePresent(ss[1..], s);
      var k := FirstIndex(ss[1..], s);
      assert ss[..k + 1] == [ss[0]] + ss[1..][..k];
      assert ss[k + 2..] == ss[1..][k + 1..];
    }
  }

  /** Closing a registered session removes exactly one of its registrations. */
  lemma RemoveOneRegistration(ss: seq<Session>, s: Session)
    requires s in ss
    ensures |RemoveFirst(ss, s)| == |ss| - 1
    ensures multiset(RemoveFirst(ss, s)) == multiset(ss) - multiset{s}
  {
    RemovePresent(ss, s);
    var k := FirstIndex(ss, s);
    var front, back := ss[..k], ss[k + 1..];
    assert ss == front + ([s] + back);
    calc {
      multiset(ss);
      multiset(front) + multiset([s] + back);
      multiset(front) + (multiset{s} + multiset(back));
    }
    assert RemoveFirst(ss, s) == front + back;
  }
}
