/** Sending out the messages of one Ready (raft/locker.go), over a network that may lose requests
    and replies, to receivers that may refuse a message (raft/transport.go). */
module Messages {

  datatype Message = Message(to: nat, body: int)

  /** What becomes of one attempt: the request is lost, or it reaches a receiver whose node may be
      unset, whose decoding may fail and whose step may be refused, and the reply may be lost. */
  datatype Delivery = RequestLost | Arrived(nodeSet: bool, decoded: bool, accepted: bool, replyLost: bool)

  /** The delivery that meets attempt `a` at message `k`. */
  type Network = (nat, nat) -> Delivery

  datatype SendResult = Replied(applied: bool) | SendError

  datatype Event =
    | Appended(entries: seq<int>)
    | SteppedLocally(k: nat)
    | Accepted(k: nat)               // at the receiver: its step of message k succeeded
    | Acknowledged(k: nat)
    | ReportedUnreachable(k: nat)
    | Advanced

  /** The receiver's answer to a request that arrives. */
  function Send(d: Delivery): (applied: bool)
    requires d.Arrived?
  {
    d.nodeSet && d.decoded && d.accepted
  }

  function DoSend(peers: set<nat>, msg: Message, d: Delivery): SendResult {
    if msg.to !in peers then SendError
    else if d.RequestLost? || d.replyLost then SendError
    else Replied(Send(d))
  }

  /** The receiver steps the message in this attempt. */
  predicate Steps(peers: set<nat>, msg: Message, d: Delivery) {
    msg.to in peers && d.Arrived? && Send(d)
  }

  /** Attempt `a` is the first one at message `k` that is not answered "not applied". */
  ghost predicate Decides(peers: set<nat>, msg: Message, k: nat, net: Network, a: nat) {
    && DoSend(peers, msg, net(k, a)) != Replied(false)
    && forall b: nat :: b < a ==> DoSend(peers, msg, net(k, b)) == Replied(false)
  }

  predicate IsFate(e: Event) { e.SteppedLocally? || e.Acknowledged? || e.ReportedUnreachable? }

  predicate OfMessage(e: Event) { IsFate(e) || e.Accepted? }

  /** The final events of the messages, in order. */
  function Fates(log: seq<Event>): seq<Event> {
    if log == [] then []
    else Fates(log[..|log| - 1]) + if IsFate(log[|log| - 1]) then [log[|log| - 1]] else []
  }

  function Count(log: seq<Event>, e: Event): nat {
    if log == [] then 0 else Count(log[..|log| - 1], e) + if log[|log| - 1] == e then 1 else 0
  }

  lemma Grow(log: seq<Event>, e: Event)
    ensures Fates(log + [e]) == Fates(log) + if IsFate(e) then [e] else []
    ensures forall x :: Count(log + [e], x) == Count(log, x) + if e == x then 1 else 0
  {
  }

  /** What the log says of message `k` if attempt `a` decided it. */
  ghost predicate AccountedAt(peers: set<nat>, msg: Message, k: nat, net: Network, fate: Event, accepted: nat, a: nat) {
    && Decides(peers, msg, k, net, a)
    && fate == (if DoSend(peers, msg, net(k, a)) == Replied(true) then Acknowledged(k) else ReportedUnreachable(k))
    && accepted == (if Steps(peers, msg, net(k, a)) then 1 else 0)
  }

  /** What the log must say of message `k`. */
  ghost predicate Accounted(id: nat, peers: set<nat>, msg: Message, k: nat, net: Network, fate: Event, accepted: nat) {
    if msg.to == id then fate == SteppedLocally(k) && accepted == 0
    else exists a: nat :: AccountedAt(peers, msg, k, net, fate, accepted, a)
  }

  /** After the entries, the log speaks of the first `n` messages only, in order. */
  ghost predicate InOrder(log: seq<Event>, n: nat) {
    && (forall i :: 1 <= i < |log| ==> OfMessage(log[i]) && log[i].k < n)
    && (forall i, j :: 1 <= i < j < |log| ==> log[i].k <= log[j].k)
  }

  /** The first `n` messages are accounted for, and nothing is said of the others. */
  ghost predicate Told(id: nat, peers: set<nat>, msgs: seq<Message>, net: Network, log: seq<Event>, n: nat)
    requires n <= |msgs|
  {
    && |Fates(log)| == n
    && (forall k :: 0 <= k < n ==> Accounted(id, peers, msgs[k], k, net, Fates(log)[k], Count(log, Accepted(k))))
    && (forall k :: n <= k ==> Count(log, Accepted(k)) == 0)
  }

  ghost predicate Handled(id: nat, peers: set<nat>, msgs: seq<Message>, net: Network, log: seq<Event>, n: nat)
    requires n <= |msgs|
  {
    Told(id, peers, msgs, net, log, n) && InOrder(log, n)
  }

  lemma InOrderNext(log: seq<Event>, n: nat, e: Event)
    requires InOrder(log, n) && 1 <= |log| && OfMessage(e) && n <= e.k + 1
    ensures InOrder(log + [e], e.k + 1)
  {
  }

  /** What the last event of a message is, if `a` is the attempt that decided it. */
  function FateOf(id: nat, peers: set<nat>, msg: Message, k: nat, d: Delivery): Event {
    if msg.to == id then SteppedLocally(k)
    else if DoSend(peers, msg, d) == Replied(true) then Acknowledged(k)
    else ReportedUnreachable(k)
  }

  /** What the events of one message add to the account. */
  lemma GrowTwice(before: seq<Event>, k: nat, steps: bool, fate: Event) returns (after: seq<Event>)
    requires IsFate(fate)
    ensures after == before + (if steps then [Accepted(k)] else []) + [fate]
    ensures Fates(after) == Fates(before) + [fate]
    ensures forall x :: Count(after, Accepted(x)) == Count(before, Accepted(x)) + if steps && x == k then 1 else 0
  {
    var mid := before + if steps then [Accepted(k)] else [];
    after := mid + [fate];
    Grow(mid, fate);
    if steps {
      Grow(before, Accepted(k));
    } else {
      assert mid == before;
    }
  }

  lemma ToldNext(id: nat, peers: set<nat>, msgs: seq<Message>, net: Network,
                 before: seq<Event>, after: seq<Event>, k: nat, steps: bool, fate: Event)
    requires k < |msgs| && Told(id, peers, msgs, net, before, k)
    requires Fates(after) == Fates(before) + [fate]
    requires forall x :: Count(after, Accepted(x)) == Count(before, Accepted(x)) + if steps && x == k then 1 else 0
    requires Accounted(id, peers, msgs[k], k, net, fate, if steps then 1 else 0)
    ensures Told(id, peers, msgs, net, after, k + 1)
  {
  }

  /** One more message accounted for. */
  lemma HandledNext(id: nat, peers: set<nat>, msgs: seq<Message>, net: Network,
                    before: seq<Event>, k: nat, a: nat) returns (after: seq<Event>)
    requires k < |msgs| && 1 <= |before| && Handled(id, peers, msgs, net, before, k)
    requires msgs[k].to != id ==> Decides(peers, msgs[k], k, net, a)
    ensures after == before + (if msgs[k].to != id && Steps(peers, msgs[k], net(k, a)) then [Accepted(k)] else [])
                            + [FateOf(id, peers, msgs[k], k, net(k, a))]
    ensures Handled(id, peers, msgs, net, after, k + 1)
  {
    var steps := msgs[k].to != id && Steps(peers, msgs[k], net(k, a));
    var fate := FateOf(id, peers, msgs[k], k, net(k, a));
    after := GrowTwice(before, k, steps, fate);
    assert msgs[k].to != id ==> AccountedAt(peers, msgs[k], k, net, fate, if steps then 1 else 0, a);
    ToldNext(id, peers, msgs, net, before, after, k, steps, fate);
    if steps {
      InOrderNext(before, k, Accepted(k));
      InOrderNext(before + [Accepted(k)], k + 1, fate);
    } else {
      InOrderNext(before, k, fate);
      assert before + [] == before;
    }
  }

  /** The retry loop of one message: ends when an attempt is applied or fails. */
  method SendUntilDecided(peers: set<nat>, msg: Message, k: nat, net: Network, before: seq<Event>)
    returns (log: seq<Event>, attempt: nat)
    requires exists a: nat :: DoSend(peers, msg, net(k, a)) != Replied(false)
    ensures Decides(peers, msg, k, net, attempt)
    ensures log == before + (if Steps(peers, msg, net(k, attempt)) then [Accepted(k)] else [])
                          + [if DoSend(peers, msg, net(k, attempt)) == Replied(true) then Acknowledged(k)
                             else ReportedUnreachable(k)]
  {
    log, attempt := before, 0;
    ghost var last: nat :| DoSend(peers, msg, net(k, last)) != Replied(false);
    while true
      invariant attempt <= last && log == before
      invariant forall b: nat :: b < attempt ==> DoSend(peers, msg, net(k, b)) == Replied(false)
      decreases last - attempt
    {
      var d := net(k, attempt);
      if Steps(peers, msg, d) {
        log := log + [Accepted(k)];
      }
      var result := DoSend(peers, msg, d);
      if result.SendError? {
        log := log + [ReportedUnreachable(k)];
        return;
      }
      if result.applied {
        log := log + [Acknowledged(k)];
        return;
      }
      attempt := attempt + 1;
    }
  }

  lemma NothingHandled(id: nat, peers: set<nat>, msgs: seq<Message>, net: Network, first: Event)
    requires first.Appended?
    ensures Handled(id, peers, msgs, net, [first], 0)
  {
    assert [first][..0] == [];
  }

  /** Steps a message to this node, or sends it until that is decided. */
  method HandleMessage(id: nat, peers: set<nat>, msgs: seq<Message>, k: nat, net: Network, before: seq<Event>)
    returns (log: seq<Event>)
    requires k < |msgs| && 1 <= |before| && Handled(id, peers, msgs, net, before, k)
    requires msgs[k].to != id ==> exists a: nat :: DoSend(peers, msgs[k], net(k, a)) != Replied(false)
    ensures before <= log && Handled(id, peers, msgs, net, log, k + 1)
  {
    if msgs[k].to == id {
      log := before + [SteppedLocally(k)];
      ghost var after := HandledNext(id, peers, msgs, net, before, k, 0);
      assert before + [] == before;
    } else {
      var attempt;
      log, attempt := SendUntilDecided(peers, msgs[k], k, net, before);
      ghost var after := HandledNext(id, peers, msgs, net, before, k, attempt);
      assert log == after;
    }
  }

  /** Handles one Ready: appends its entries, handles its messages one by one, and advances. */
  method ProcessReady(id: nat, peers: set<nat>, entries: seq<int>, msgs: seq<Message>, net: Network)
    returns (log: seq<Event>)
    requires forall k :: 0 <= k < |msgs| && msgs[k].to != id ==>
               exists a: nat :: DoSend(peers, msgs[k], net(k, a)) != Replied(false)
    ensures 2 <= |log| && log[0] == Appended(entries) && log[|log| - 1] == Advanced
    ensures Handled(id, peers, msgs, net, log[..|log| - 1], |msgs|)
  {
    log := [Appended(entries)];
    NothingHandled(id, peers, msgs, net, log[0]);
    for k := 0 to |msgs|
      invariant 1 <= |log| && log[0] == Appended(entries)
      invariant Handled(id, peers, msgs, net, log, k)
    {
      log := HandleMessage(id, peers, msgs, k, net, log);
    }
    ghost var sent := log;
    log := log + [Advanced];
    assert log[..|log| - 1] == sent;
  }

  lemma {:induction false} CountFates(log: seq<Event>, e: Event)
    requires IsFate(e)
    ensures Count(log, e) == Count(Fates(log), e)
  {
    if log != [] {
      var last := log[|log| - 1];
      CountFates(log[..|log| - 1], e);
      if IsFate(last) {
        assert Fates(log)[..|Fates(log)| - 1] == Fates(log[..|log| - 1]);
      } else {
        assert Fates(log) == Fates(log[..|log| - 1]);
      }
    }
  }

  /** Among fates in message order, the only one that can be `e` is that of its own message. */
  lemma {:induction false} CountOnce(fates: seq<Event>, k: nat, e: Event)
    requires IsFate(e) && e.k == k
    requires forall j :: 0 <= j < |fates| ==> IsFate(fates[j]) && fates[j].k == j
    ensures Count(fates, e) == if k < |fates| && fates[k] == e then 1 else 0
  {
    if fates != [] {
      CountOnce(fates[..|fates| - 1], k, e);
    }
  }

  /** What the account of a message comes to: it is stepped here, acknowledged or reported, and
      exactly one of these; acknowledged means the receiver stepped it, exactly once; reported
      means at most once; a message to an unknown peer is reported and never stepped. */
  lemma Conservation(id: nat, peers: set<nat>, msgs: seq<Message>, net: Network, log: seq<Event>, k: nat)
    requires k < |msgs| && Handled(id, peers, msgs, net, log, |msgs|)
    ensures Count(log, SteppedLocally(k)) + Count(log, Acknowledged(k)) + Count(log, ReportedUnreachable(k)) == 1
    ensures Count(log, SteppedLocally(k)) == 1 <==> msgs[k].to == id
    ensures Count(log, Acknowledged(k)) == 1 ==> Count(log, Accepted(k)) == 1
    ensures Count(log, Accepted(k)) <= 1
    ensures msgs[k].to !in peers && msgs[k].to != id ==>
              Count(log, ReportedUnreachable(k)) == 1 && Count(log, Accepted(k)) == 0
  {
    CountFates(log, SteppedLocally(k));
    CountFates(log, Acknowledged(k));
    CountFates(log, ReportedUnreachable(k));
    assert Accounted(id, peers, msgs[k], k, net, Fates(log)[k], Count(log, Accepted(k)));
    forall j | 0 <= j < |msgs| ensures Fates(log)[j].k == j {
      assert Accounted(id, peers, msgs[j], j, net, Fates(log)[j], Count(log, Accepted(j)));
    }
    CountOnce(Fates(log), k, SteppedLocally(k));
    CountOnce(Fates(log), k, Acknowledged(k));
    CountOnce(Fates(log), k, ReportedUnreachable(k));
  }

  /** The receiver's node was set, decoded the message and stepped it. */
  predicate TakenIn(d: Delivery) { d.Arrived? && d.nodeSet && d.decoded && d.accepted }

  /** The sender is left without an answer. */
  predicate Unanswered(d: Delivery) { d.RequestLost? || d.replyLost }

  /** The account of a message to a known peer, in terms of what the network and the receiver did: there
      is an attempt before which every attempt was answered and not taken in, and at which this stops
      being so; the receiver stepped the message exactly if it was taken in there, and the message is
      reported unreachable exactly if the sender was left without an answer there. */
  lemma FatesExplained(id: nat, peers: set<nat>, msgs: seq<Message>, net: Network, log: seq<Event>, k: nat)
    returns (a: nat)
    requires k < |msgs| && Handled(id, peers, msgs, net, log, |msgs|)
    requires msgs[k].to != id && msgs[k].to in peers
    ensures forall b: nat :: b < a ==> !TakenIn(net(k, b)) && !Unanswered(net(k, b))
    ensures TakenIn(net(k, a)) || Unanswered(net(k, a))
    ensures Count(log, Accepted(k)) == if TakenIn(net(k, a)) then 1 else 0
    ensures Count(log, ReportedUnreachable(k)) == if Unanswered(net(k, a)) then 1 else 0
    ensures Count(log, Acknowledged(k)) == if Unanswered(net(k, a)) then 0 else 1
  {
    Conservation(id, peers, msgs, net, log, k);
    assert Accounted(id, peers, msgs[k], k, net, Fates(log)[k], Count(log, Accepted(k)));
    a :| AccountedAt(peers, msgs[k], k, net, Fates(log)[k], Count(log, Accepted(k)), a);
    forall j | 0 <= j < |msgs| ensures IsFate(Fates(log)[j]) && Fates(log)[j].k == j {
      assert Accounted(id, peers, msgs[j], j, net, Fates(log)[j], Count(log, Accepted(j)));
    }
    CountFates(log, ReportedUnreachable(k));
    CountOnce(Fates(log), k, ReportedUnreachable(k));
  }

  lemma {:induction false} CountSome(log: seq<Event>, i: nat)
    requires i < |log|
    ensures 1 <= Count(log, log[i])
  {
    if i < |log| - 1 {
      CountSome(log[..|log| - 1], i);
    }
  }

  lemma {:induction false} CountTwice(log: seq<Event>, i: nat, j: nat)
    requires i < j < |log| && log[i] == log[j]
    ensures 2 <= Count(log, log[j])
  {
    if j < |log| - 1 {
      CountTwice(log[..|log| - 1], i, j);
    } else {
      CountSome(log[..|log| - 1], i);
    }
  }

  /** Receivers step this Ready's messages in the order they were handed over, so each peer does. */
  lemma AcceptedInOrder(id: nat, peers: set<nat>, msgs: seq<Message>, net: Network, log: seq<Event>, i: nat, j: nat)
    requires Handled(id, peers, msgs, net, log, |msgs|)
    requires 1 <= i < j < |log| && log[i].Accepted? && log[j].Accepted?
    ensures log[i].k < log[j].k
  {
    if log[i].k == log[j].k {
      CountTwice(log, i, j);
      Conservation(id, peers, msgs, net, log, log[j].k);
    }
  }
}
