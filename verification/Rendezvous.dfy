/** Request and reply across the control channel: an API call parks a waiter
    under its envelope id, the session that was asked delivers at most one
    answer to it, and every way out removes the waiter. */
module Rendezvous {
  import opened Wrappers
  import opened Wire

  type RequestId = nat
  type Data = string

  /** The locked sections of requestReply and handleConfResult. */
  class Waiters {
    var confWait: map<RequestId, NodeId>

    constructor ()
      ensures confWait == map[]
    {
      confWait := map[];
    }

    method Park(id: RequestId, node: NodeId)
      modifies this
      ensures confWait == old(confWait)[id := node]
    {
      confWait := confWait[id := node];
    }

    method Cleanup(id: RequestId)
      modifies this
      ensures confWait == old(confWait) - {id}
    {
      confWait := confWait - {id};
    }

    /** A reply claims its waiter only if it comes from the node that was asked. */
    method Claim(from: NodeId, id: RequestId) returns (ok: bool)
      modifies this
      ensures ok <==> Claims(old(confWait), from, id)
      ensures confWait == if ok then old(confWait) - {id} else old(confWait)
    {
      ok := false;
      if id in confWait && confWait[id] == from {
        confWait := confWait - {id};
        ok := true;
      }
    }
  }

  predicate Claims(confWait: map<RequestId, NodeId>, from: NodeId, id: RequestId) {
    id in confWait && confWait[id] == from
  }

  // ---- every interleaving ----

  /** Waiting in the select; decided but the waiter not yet removed; returned to the caller. */
  datatype Phase = Waiting | Decided(got: Option<Data>) | Returned(result: Option<Data>)

  /** `channel` is the call's buffered channel, of capacity one; `sends` counts what was ever put in. */
  datatype Call = Call(node: NodeId, phase: Phase, channel: seq<Data>, sends: nat)

  /** A reply handler between claiming its waiter and sending to its channel. */
  datatype Delivery = Delivery(id: RequestId, data: Data)

  /** `heard` remembers every reply read from a session. */
  datatype State = State(confWait: map<RequestId, NodeId>, calls: map<RequestId, Call>,
                         deliveries: map<nat, Delivery>, heard: set<(NodeId, RequestId, Data)>)

  const START := State(map[], map[], map[], {})

  datatype Step =
    | Ask(id: RequestId, node: NodeId)
    | ReadReply(handler: nat, from: NodeId, reply: RequestId, data: Data)
    | Send(sender: nat)
    | Receive(receiver: RequestId)
    | GiveUp(loser: RequestId)
    | Leave(leaver: RequestId)

  const CAPACITY := 1

  /** A send on a full channel blocks. */
  predicate CanSend(s: State, handler: nat) {
    && handler in s.deliveries && s.deliveries[handler].id in s.calls
    && |s.calls[s.deliveries[handler].id].channel| < CAPACITY
  }

  function Next(s: State, step: Step): State {
    match step
    case Ask(id, node) =>
      if id in s.calls then s
      else s.(confWait := s.confWait[id := node], calls := s.calls[id := Call(node, Waiting, [], 0)])
    case ReadReply(h, from, id, data) =>
      if h in s.deliveries then s
      else
        var s' := s.(heard := s.heard + {(from, id, data)});
        if Claims(s.confWait, from, id)
        then s'.(confWait := s.confWait - {id}, deliveries := s.deliveries[h := Delivery(id, data)])
        else s'
    case Send(h) =>
      if CanSend(s, h) then
        var d := s.deliveries[h];
        var c := s.calls[d.id];
        s.(calls := s.calls[d.id := c.(channel := c.channel + [d.data], sends := c.sends + 1)],
            deliveries := s.deliveries - {h})
      else s
    case Receive(id) =>
      if id in s.calls && s.calls[id].phase == Waiting && s.calls[id].channel != []
      then s.(calls := s.calls[id := s.calls[id].(phase := Decided(Some(s.calls[id].channel[0])),
          channel := s.calls[id].channel[1..])])
      else s
    case GiveUp(id) =>
      if id in s.calls && s.calls[id].phase == Waiting
      then s.(calls := s.calls[id := s.calls[id].(phase := Decided(None))])
      else s
    case Leave(id) =>
      if id in s.calls && s.calls[id].phase.Decided?
      then s.(confWait := s.confWait - {id},
          calls := s.calls[id := s.calls[id].(phase := Returned(s.calls[id].phase.got))])
      else s
  }

  function Run(steps: seq<Step>): State {
    if steps == [] then START else Next(Run(steps[..|steps| - 1]), steps[|steps| - 1])
  }

  /** Who still has the right to answer: the parked waiter, or the one delivery that claimed it. */
  ghost predicate WaiterOk(s: State, id: RequestId) {
    id in s.confWait ==>
      && id in s.calls && s.confWait[id] == s.calls[id].node && s.calls[id].sends == 0
      && !s.calls[id].phase.Returned?
      && forall h <- s.deliveries :: s.deliveries[h].id != id
  }

  ghost predicate DeliveryOk(s: State, h: nat)
    requires h in s.deliveries
  {
    var d := s.deliveries[h];
    && d.id in s.calls && s.calls[d.id].sends == 0
    && (s.calls[d.id].node, d.id, d.data) in s.heard
    && forall k <- s.deliveries | k != h :: s.deliveries[k].id != d.id
  }

  ghost predicate CallOk(s: State, id: RequestId)
    requires id in s.calls
  {
    var c := s.calls[id];
    && c.sends <= 1 && |c.channel| <= c.sends
    && (forall data <- c.channel :: (c.node, id, data) in s.heard)
    && match c.phase
       case Waiting => true
       case Decided(got) => got.Some? ==> c.sends == 1 && (c.node, id, got.value) in s.heard
       case Returned(got) => got.Some? ==> c.sends == 1 && (c.node, id, got.value) in s.heard
  }

  ghost predicate Inv(s: State) {
    && (forall id :: WaiterOk(s, id))
    && (forall h <- s.deliveries :: DeliveryOk(s, h))
    && (forall id <- s.calls :: CallOk(s, id))
  }

  lemma ReplyKeeps(s: State, step: Step)
    requires Inv(s) && step.ReadReply?
    ensures Inv(Next(s, step))
  {
    var s' := Next(s, step);
    forall id ensures WaiterOk(s', id) {
      assert WaiterOk(s, id);
    }
    forall h <- s'.deliveries ensures DeliveryOk(s', h) {
      assert h in s.deliveries ==> DeliveryOk(s, h);
      assert WaiterOk(s, step.reply);
    }
    forall id <- s'.calls ensures CallOk(s', id) {
      assert CallOk(s, id);
    }
  }

  lemma SendKeeps(s: State, step: Step)
    requires Inv(s) && step.Send?
    ensures Inv(Next(s, step))
  {
    var s' := Next(s, step);
    forall id ensures WaiterOk(s', id) {
      assert WaiterOk(s, id);
    }
    forall h <- s'.deliveries ensures DeliveryOk(s', h) {
      assert DeliveryOk(s, h);
    }
    forall id <- s'.calls ensures CallOk(s', id) {
      assert CallOk(s, id);
      if CanSend(s, step.sender) {
        assert DeliveryOk(s, step.sender);
      }
    }
  }

  lemma AskKeeps(s: State, step: Step)
    requires Inv(s) && step.Ask?
    ensures Inv(Next(s, step))
  {
    var s' := Next(s, step);
    forall id ensures WaiterOk(s', id) {
      assert WaiterOk(s, id);
      forall h <- s.deliveries ensures s.deliveries[h].id in s.calls {
        assert DeliveryOk(s, h);
      }
    }
    forall h <- s'.deliveries ensures DeliveryOk(s', h) {
      assert DeliveryOk(s, h);
    }
    forall id <- s'.calls ensures CallOk(s', id) {
      assert id in s.calls ==> CallOk(s, id);
    }
  }

  lemma CallerKeeps(s: State, step: Step)
    requires Inv(s) && (step.Receive? || step.GiveUp? || step.Leave?)
    ensures Inv(Next(s, step))
  {
    var s' := Next(s, step);
    forall id ensures WaiterOk(s', id) {
      assert WaiterOk(s, id);
    }
    forall h <- s'.deliveries ensures DeliveryOk(s', h) {
      assert DeliveryOk(s, h);
    }
    forall id <- s'.calls ensures CallOk(s', id) {
      assert CallOk(s, id);
    }
  }

  lemma {:induction false} EveryRunKeeps(steps: seq<Step>)
    ensures Inv(Run(steps))
  {
    if steps != [] {
      var s, step := Run(steps[..|steps| - 1]), steps[|steps| - 1];
      EveryRunKeeps(steps[..|steps| - 1]);
      if step.ReadReply? {
        ReplyKeeps(s, step);
      } else if step.Send? {
        SendKeeps(s, step);
      } else if step.Ask? {
        AskKeeps(s, step);
      } else {
        CallerKeeps(s, step);
      }
    }
  }

  /** In every interleaving of requests, replies, duplicates and timeouts: a call's channel is sent to
      at most once, a send that is due never blocks, and at most one is due. */
  lemma SendsNeverBlock(steps: seq<Step>, h: nat)
    requires h in Run(steps).deliveries
    ensures var s := Run(steps);
            && CanSend(s, h) && s.calls[s.deliveries[h].id].sends == 0
            && forall k <- s.deliveries | k != h :: s.deliveries[k].id != s.deliveries[h].id
  {
    EveryRunKeeps(steps);
    var s := Run(steps);
    assert DeliveryOk(s, h);
    assert CallOk(s, s.deliveries[h].id);
  }

  /** What a call returns was said by the node it asked, in reply to its own envelope; and once it has
      returned nothing of it is left in the waiting table. */
  lemma AnswersAreGenuine(steps: seq<Step>, id: RequestId)
    requires id in Run(steps).calls
    ensures var s := Run(steps);
            var c := s.calls[id];
            && c.sends <= 1
            && (c.phase.Returned? ==>
                  id !in s.confWait && (c.phase.result.Some? ==> (c.node, id, c.phase.result.value) in s.heard))
  {
    EveryRunKeeps(steps);
    assert WaiterOk(Run(steps), id) && CallOk(Run(steps), id);
  }

  /** Where the claimed answer of a call is: on its way while the call waits, and then with the caller,
      unless the caller gave up. */
  ghost predicate AnswerOf(s: State, id: RequestId, data: Data) {
    && id in s.calls && id !in s.confWait
    && match s.calls[id].phase
       case Waiting => s.calls[id].channel == [data] || Due(s, id, data)
       case Decided(got) => got.Some? ==> got.value == data
       case Returned(got) => got.Some? ==> got.value == data
  }

  ghost predicate Due(s: State, id: RequestId, data: Data) {
    exists h :: h in s.deliveries && s.deliveries[h] == Delivery(id, data)
  }

  lemma AnswerStays(s: State, step: Step, id: RequestId, data: Data)
    requires Inv(s) && AnswerOf(s, id, data)
    ensures AnswerOf(Next(s, step), id, data)
  {
    assert CallOk(s, id);
    var s' := Next(s, step);
    if s.calls[id].phase == Waiting && Due(s, id, data) {
      var h :| h in s.deliveries && s.deliveries[h] == Delivery(id, data);
      assert DeliveryOk(s, h);
      if step.Send? && CanSend(s, step.sender) {
        assert DeliveryOk(s, step.sender);
        if step.sender == h {
          assert s'.calls[id].channel == [data];
        } else {
          assert s'.deliveries[h] == Delivery(id, data);
        }
      } else {
        assert h in s'.deliveries && s'.deliveries[h] == Delivery(id, data);
      }
    } else if s.calls[id].phase == Waiting && step.Send? && CanSend(s, step.sender) {
      assert DeliveryOk(s, step.sender);
    }
  }

  /** Over every run: once a genuine reply has been heard while its waiter was parked, it is never lost.
      As long as the call waits, a delivery with it is due or it lies in the call's channel; and whatever
      answer the call ends with is that reply. */
  lemma {:induction false} NoAnswerIsLost(before: seq<Step>, h: nat, from: NodeId, id: RequestId, data: Data,
      after: seq<Step>)
    requires var s := Run(before); Claims(s.confWait, from, id) && h !in s.deliveries
    ensures AnswerOf(Run(before + [ReadReply(h, from, id, data)] + after), id, data)
    decreases |after|
  {
    var heard := before + [ReadReply(h, from, id, data)];
    EveryRunKeeps(before);
    if after == [] {
      assert heard + after == heard && heard[..|heard| - 1] == before;
      ClaimIsDue(Run(before), h, from, id, data);
    } else {
      var init, last := after[..|after| - 1], after[|after| - 1];
      var all := heard + after;
      assert all[..|all| - 1] == heard + init && all[|all| - 1] == last;
      NoAnswerIsLost(before, h, from, id, data, init);
      EveryRunKeeps(heard + init);
      AnswerStays(Run(heard + init), last, id, data);
    }
  }

  lemma ClaimIsDue(s: State, h: nat, from: NodeId, id: RequestId, data: Data)
    requires Inv(s) && Claims(s.confWait, from, id) && h !in s.deliveries
    ensures AnswerOf(Next(s, ReadReply(h, from, id, data)), id, data)
  {
    assert WaiterOk(s, id) && CallOk(s, id);
    var s' := Next(s, ReadReply(h, from, id, data));
    assert s'.deliveries[h] == Delivery(id, data);
  }

  /** The quickest way through: the first genuine reply to a call still waiting is the one it gets, as soon as
      the delivery has been sent, if the caller does not give up first. */
  lemma GenuineReplyArrives(steps: seq<Step>, id: RequestId, h: nat, data: Data)
    requires var s := Run(steps);
             id in s.confWait && id in s.calls && s.calls[id].phase == Waiting && h !in s.deliveries
    ensures var s := Run(steps);
            var s' := Next(Next(Next(s, ReadReply(h, s.confWait[id], id, data)), Send(h)), Receive(id));
            id in s'.calls && s'.calls[id].phase == Decided(Some(data))
  {
    EveryRunKeeps(steps);
    var s := Run(steps);
    assert WaiterOk(s, id) && CallOk(s, id);
    var s1 := Next(s, ReadReply(h, s.confWait[id], id, data));
    assert s1.deliveries[h] == Delivery(id, data) && s1.calls[id].channel == [];
    var s2 := Next(s1, Send(h));
    assert s2.calls[id].channel == [data];
  }
}
