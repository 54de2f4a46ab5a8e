// src/kademlia/network.go: requests, retries and the matching of replies, as a protocol over a
// network that loses, repeats and delays packets but reports their true source address.
module Rpc {
  import opened Wrappers
  import opened FindRpc

  type Token = int

  // A registered call. `response` is the buffered channel that takes one reply.
  datatype Pending = Pending(address: string, kind: string, request: Bytes, attempts: nat, response: Option<Bytes>)

  datatype Packet = Packet(from: string, to: string, token: Token, kind: string, reply: bool, payload: Bytes)

  // A call that was once registered by a node.
  datatype Registration = Registration(node: string, token: Token, address: string, kind: string, request: Bytes)

  // `nodes` run this program; other addresses may send anything. `calls` and `served` are history:
  // every registration, and every request that was answered with the payload of its answer.
  datatype State = State(
    nodes: map<string, map<Token, Pending>>, sent: set<Packet>, calls: set<Registration>, served: set<(Packet, Bytes)>)

  datatype Step =
    | Register(node: string, token: Token, address: string, kind: string, request: Bytes)
    | Transmit(node: string, token: Token)
    | Serve(incoming: Packet, answer: Bytes)
    | Inject(packet: Packet)
    | Receive(packet: Packet)
    | Finish(node: string, token: Token)

  function Put(s: State, n: string, t: Token, p: Pending): State
    requires n in s.nodes
  {
    s.(nodes := s.nodes[n := s.nodes[n][t := p]])
  }

  function RequestOf(n: string, t: Token, p: Pending): Packet {
    Packet(n, p.address, t, p.kind, false, p.request)
  }

  function ReplyTo(r: Packet, answer: Bytes): Packet {
    Packet(r.to, r.from, r.token, r.kind, true, answer)
  }

  // receiveLoop: the entry of the token was sent to this address and is of this type.
  predicate Matches(s: State, p: Packet) {
    && p.to in s.nodes && p.reply && p.token in s.nodes[p.to]
    && s.nodes[p.to][p.token].address == p.from && s.nodes[p.to][p.token].kind == p.kind
  }

  ghost predicate NextBy(retries: nat, s: State, step: Step, t: State) {
    match step
    case Register(n, token, address, kind, request) =>
      && n in s.nodes && token !in s.nodes[n]
      && t == Put(s, n, token, Pending(address, kind, request, 0, None))
              .(calls := s.calls + {Registration(n, token, address, kind, request)})
    case Transmit(n, token) =>
      && n in s.nodes && token in s.nodes[n] && s.nodes[n][token].attempts <= retries
      && t == Put(s, n, token, s.nodes[n][token].(attempts := s.nodes[n][token].attempts + 1))
              .(sent := s.sent + {RequestOf(n, token, s.nodes[n][token])})
    case Serve(r, answer) =>
      && r in s.sent && r.to in s.nodes && !r.reply
      && t == s.(sent := s.sent + {ReplyTo(r, answer)}, served := s.served + {(r, answer)})
    case Inject(p) => p.from !in s.nodes && t == s.(sent := s.sent + {p})
    case Receive(p) =>
      && p in s.sent
      && t == if Matches(s, p) && s.nodes[p.to][p.token].response.None?
              then Put(s, p.to, p.token, s.nodes[p.to][p.token].(response := Some(p.payload)))
              else s
    case Finish(n, token) =>
      && n in s.nodes && token in s.nodes[n]
      && t == s.(nodes := s.nodes[n := s.nodes[n] - {token}])
  }

  ghost predicate Initial(s: State) {
    s.sent == {} && s.calls == {} && s.served == {} && forall n :: n in s.nodes ==> s.nodes[n] == map[]
  }

  ghost predicate Run(retries: nat, states: seq<State>, steps: seq<Step>) {
    && |states| == |steps| + 1 && Initial(states[0])
    && forall i :: 0 <= i < |steps| ==> NextBy(retries, states[i], steps[i], states[i + 1])
  }

  // ------------------------------------------------------------------ invariant

  // An answer that the node at `from` gave to a request with this token and type from `to`.
  ghost predicate Answered(s: State, from: string, to: string, token: Token, kind: string, answer: Bytes) {
    exists r :: (r, answer) in s.served && IsRequest(s, r, from, to, token, kind)
  }

  ghost predicate IsRequest(s: State, r: Packet, from: string, to: string, token: Token, kind: string) {
    && r.from == to && r.to == from && r.token == token && r.kind == kind
    && (to in s.nodes ==> Registration(to, token, from, kind, r.payload) in s.calls)
  }

  ghost predicate GoodPacket(s: State, p: Packet) {
    p.from in s.nodes ==>
      if p.reply then Answered(s, p.from, p.to, p.token, p.kind, p.payload)
      else Registration(p.from, p.token, p.to, p.kind, p.payload) in s.calls
  }

  ghost predicate GoodPending(retries: nat, s: State, n: string, t: Token, p: Pending) {
    && Registration(n, t, p.address, p.kind, p.request) in s.calls && p.attempts <= retries + 1
    && (p.response.Some? && p.address in s.nodes ==> Answered(s, p.address, n, t, p.kind, p.response.value))
  }

  ghost predicate Good(retries: nat, s: State) {
    && (forall p :: p in s.sent ==> GoodPacket(s, p))
    && forall n, t :: n in s.nodes && t in s.nodes[n] ==> GoodPending(retries, s, n, t, s.nodes[n][t])
  }

  lemma AnsweredStill(s: State, t: State, from: string, to: string, token: Token, kind: string, answer: Bytes)
    requires Answered(s, from, to, token, kind, answer)
    requires s.calls <= t.calls && s.served <= t.served && t.nodes.Keys == s.nodes.Keys
    ensures Answered(t, from, to, token, kind, answer)
  {
    var r :| (r, answer) in s.served && IsRequest(s, r, from, to, token, kind);
    assert IsRequest(t, r, from, to, token, kind);
  }

  lemma PacketStill(s: State, t: State, p: Packet)
    requires GoodPacket(s, p)
    requires s.calls <= t.calls && s.served <= t.served && t.nodes.Keys == s.nodes.Keys
    ensures GoodPacket(t, p)
  {
    if p.from in s.nodes && p.reply {
      AnsweredStill(s, t, p.from, p.to, p.token, p.kind, p.payload);
    }
  }

  lemma PendingStill(retries: nat, s: State, t: State, n: string, token: Token, p: Pending)
    requires GoodPending(retries, s, n, token, p)
    requires s.calls <= t.calls && s.served <= t.served && t.nodes.Keys == s.nodes.Keys
    ensures GoodPending(retries, t, n, token, p)
  {
    if p.response.Some? && p.address in s.nodes {
      AnsweredStill(s, t, p.address, n, token, p.kind, p.response.value);
    }
  }

  lemma History(retries: nat, s: State, step: Step, t: State)
    requires NextBy(retries, s, step, t)
    ensures s.calls <= t.calls && s.served <= t.served && t.nodes.Keys == s.nodes.Keys
  {
  }

  lemma StepPackets(retries: nat, s: State, step: Step, t: State, p: Packet)
    requires Good(retries, s) && NextBy(retries, s, step, t) && p in t.sent
    ensures GoodPacket(t, p)
  {
    History(retries, s, step, t);
    if p in s.sent {
      PacketStill(s, t, p);
    } else {
      match step {
        case Transmit(n, token) => assert GoodPending(retries, s, n, token, s.nodes[n][token]);
        case Serve(r, answer) =>
          assert GoodPacket(s, r);
          assert (r, answer) in t.served && IsRequest(t, r, p.from, p.to, p.token, p.kind);
        case _ =>
      }
    }
  }

  lemma StepPending(retries: nat, s: State, step: Step, t: State, n: string, token: Token)
    requires Good(retries, s) && NextBy(retries, s, step, t)
    requires n in t.nodes && token in t.nodes[n]
    ensures GoodPending(retries, t, n, token, t.nodes[n][token])
  {
    hide Answered;
    History(retries, s, step, t);
    if token in s.nodes[n] {
      assert GoodPending(retries, s, n, token, s.nodes[n][token]);
      PendingStill(retries, s, t, n, token, s.nodes[n][token]);
      if step.Receive? {
        assert GoodPacket(s, step.packet);
        PacketStill(s, t, step.packet);
      }
    }
  }

  lemma {:induction false} RunGood(retries: nat, states: seq<State>, steps: seq<Step>, i: nat)
    requires Run(retries, states, steps) && i < |states|
    ensures Good(retries, states[i])
  {
    if i > 0 {
      RunGood(retries, states, steps, i - 1);
      var s, t := states[i - 1], states[i];
      forall p | p in t.sent ensures GoodPacket(t, p) {
        StepPackets(retries, s, steps[i - 1], t, p);
      }
      forall n, token | n in t.nodes && token in t.nodes[n] ensures GoodPending(retries, t, n, token, t.nodes[n][token]) {
        StepPending(retries, s, steps[i - 1], t, n, token);
      }
    }
  }

  // ------------------------------------------------------------------ replies answer their requests

  // A slot: everything a reply is matched by. The calls that a node has made through it.
  datatype Slot = Slot(node: string, token: Token, address: string, kind: string)

  function SlotCall(slot: Slot, request: Bytes): Registration {
    Registration(slot.node, slot.token, slot.address, slot.kind, request)
  }

  // The slot has served at most one request; repeating that request is allowed.
  ghost predicate OneRequest(s: State, slot: Slot) {
    forall x, y :: SlotCall(slot, x) in s.calls && SlotCall(slot, y) in s.calls ==> x == y
  }

  // Whatever is lost, repeated or late, and whatever others send: the reply a call receives from a
  // node is one that this node computed for a request of the same caller, token and type; and for
  // this very request, if the slot has served no other.
  lemma ReplyAnswersRequest(retries: nat, states: seq<State>, steps: seq<Step>, i: nat, n: string, token: Token)
    requires Run(retries, states, steps) && i < |states|
    requires n in states[i].nodes && token in states[i].nodes[n]
    ensures var s, p := states[i], states[i].nodes[n][token];
      && p.attempts <= retries + 1
      && (p.response.Some? && p.address in s.nodes ==>
        && Answered(s, p.address, n, token, p.kind, p.response.value)
        && (OneRequest(s, Slot(n, token, p.address, p.kind)) ==> (RequestOf(n, token, p), p.response.value) in s.served))
  {
    RunGood(retries, states, steps, i);
    var s, p := states[i], states[i].nodes[n][token];
    assert GoodPending(retries, s, n, token, p);
    var slot := Slot(n, token, p.address, p.kind);
    if p.response.Some? && p.address in s.nodes && OneRequest(s, slot) {
      RunRequests(retries, states, steps, i);
      var r :| (r, p.response.value) in s.served && IsRequest(s, r, p.address, n, token, p.kind);
      assert SlotCall(slot, r.payload) in s.calls && SlotCall(slot, p.request) in s.calls;
      assert r == RequestOf(n, token, p);
    }
  }

  lemma {:induction false} RunRequests(retries: nat, states: seq<State>, steps: seq<Step>, i: nat)
    requires Run(retries, states, steps) && i < |states|
    ensures forall e :: e in states[i].served ==> !e.0.reply
  {
    if i > 0 {
      RunRequests(retries, states, steps, i - 1);
    }
  }

  // ------------------------------------------------------------------ the condition is exact

  // A call in flight through the slot whose buffered reply was not computed for its own request.
  ghost predicate Mistaken(s: State, slot: Slot) {
    && slot.node in s.nodes && slot.address in s.nodes && slot.token in s.nodes[slot.node]
    && var p := s.nodes[slot.node][slot.token];
      && p.address == slot.address && p.kind == slot.kind && p.response.Some?
      && (RequestOf(slot.node, slot.token, p), p.response.value) !in s.served
  }

  // All that the slot has served is among these requests.
  ghost predicate ServesOnly(s: State, slot: Slot, requests: set<Bytes>) {
    forall x :: SlotCall(slot, x) in s.calls ==> x in requests
  }

  // No run in which the slot serves only these requests ends in such a mistake.
  ghost predicate NeverMistaken(retries: nat, slot: Slot, requests: set<Bytes>) {
    forall states, steps :: Run(retries, states, steps) && ServesOnly(states[|steps|], slot, requests) ==>
      !Mistaken(states[|steps|], slot)
  }

  // Replies answer their own requests through exactly the slots that serve one request only. Tokens
  // are fresh among the pending calls only, so that nothing else keeps a slot from being reused.
  lemma TokenConditionExact(retries: nat, slot: Slot, requests: set<Bytes>)
    ensures NeverMistaken(retries, slot, requests) <==> forall x, y :: x in requests && y in requests ==> x == y
  {
    hide NextBy, Initial, ServesOnly, Mistaken;
    if x, y :| x in requests && y in requests && x != y {
      var states, steps := ReusedToken(retries, slot, x, y, []);
      TwoCallsOnly(states[|steps|], slot, x, y, requests);
    } else {
      forall states, steps | Run(retries, states, steps) && ServesOnly(states[|steps|], slot, requests)
        ensures !Mistaken(states[|steps|], slot)
      {
        NoMistake(retries, states, steps, slot, requests);
      }
    }
  }

  lemma NoMistake(retries: nat, states: seq<State>, steps: seq<Step>, slot: Slot, requests: set<Bytes>)
    requires Run(retries, states, steps) && ServesOnly(states[|steps|], slot, requests)
    requires forall x, y :: x in requests && y in requests ==> x == y
    ensures !Mistaken(states[|steps|], slot)
  {
    hide NextBy, Initial;
    var s := states[|steps|];
    if Mistaken(s, slot) {
      ReplyAnswersRequest(retries, states, steps, |steps|, slot.node, slot.token);
    }
  }

  lemma TwoCallsOnly(s: State, slot: Slot, first: Bytes, second: Bytes, requests: set<Bytes>)
    requires s.calls == {SlotCall(slot, first), SlotCall(slot, second)} && first in requests && second in requests
    ensures ServesOnly(s, slot, requests)
  {
  }

  function Fresh(slot: Slot, request: Bytes): Pending {
    Pending(slot.address, slot.kind, request, 0, None)
  }

  function Request(slot: Slot, request: Bytes): Packet {
    RequestOf(slot.node, slot.token, Fresh(slot, request))
  }

  // Register, transmit, be served, and give up before the reply arrives.
  lemma FirstCall(retries: nat, slot: Slot, first: Bytes, answer: Bytes)
    ensures var asked, r, calls := Fresh(slot, first), Request(slot, first), {SlotCall(slot, first)};
      var s1, s2 := Script(slot, Some(asked), {}, calls, {}), Script(slot, Some(asked.(attempts := 1)), {r}, calls, {});
      var s3 := Script(slot, Some(asked.(attempts := 1)), {r, ReplyTo(r, answer)}, calls, {(r, answer)});
      && NextBy(retries, Script(slot, None, {}, {}, {}), Register(slot.node, slot.token, slot.address, slot.kind, first), s1)
      && NextBy(retries, s1, Transmit(slot.node, slot.token), s2) && NextBy(retries, s2, Serve(r, answer), s3)
  {
    var asked, r := Fresh(slot, first), Request(slot, first);
    Scripted(slot, None, Some(asked), {}, {}, {});
    Scripted(slot, Some(asked), Some(asked.(attempts := 1)), {}, {SlotCall(slot, first)}, {});
    assert {} + {SlotCall(slot, first)} == {SlotCall(slot, first)} && {} + {r} == {r};
    assert {r} + {ReplyTo(r, answer)} == {r, ReplyTo(r, answer)} && {} + {(r, answer)} == {(r, answer)};
  }

  // Draw the token again for another request, and receive the old reply.
  lemma SecondCall(retries: nat, slot: Slot, first: Bytes, second: Bytes, answer: Bytes)
    ensures var again, r := Fresh(slot, second), Request(slot, first);
      var sent, served, calls := {r, ReplyTo(r, answer)}, {(r, answer)}, {SlotCall(slot, first), SlotCall(slot, second)};
      var s3 := Script(slot, Some(Fresh(slot, first).(attempts := 1)), sent, {SlotCall(slot, first)}, served);
      var s4, s5 := Script(slot, None, sent, {SlotCall(slot, first)}, served), Script(slot, Some(again), sent, calls, served);
      && NextBy(retries, s3, Finish(slot.node, slot.token), s4)
      && NextBy(retries, s4, Register(slot.node, slot.token, slot.address, slot.kind, second), s5)
      && NextBy(
        retries, s5, Receive(ReplyTo(r, answer)), Script(slot, Some(again.(response := Some(answer))), sent, calls, served))
  {
    var again, r := Fresh(slot, second), Request(slot, first);
    var sent, served, calls := {r, ReplyTo(r, answer)}, {(r, answer)}, {SlotCall(slot, first), SlotCall(slot, second)};
    Scripted(slot, Some(Fresh(slot, first).(attempts := 1)), None, sent, {SlotCall(slot, first)}, served);
    Scripted(slot, None, Some(again), sent, {SlotCall(slot, first)}, served);
    Scripted(slot, Some(again), Some(again.(response := Some(answer))), sent, calls, served);
    assert {SlotCall(slot, first)} + {SlotCall(slot, second)} == calls;
  }

  lemma EndsMistaken(slot: Slot, first: Bytes, second: Bytes, answer: Bytes, sent: set<Packet>, calls: set<Registration>)
    requires first != second
    ensures var p := Fresh(slot, second).(response := Some(answer));
      var s := Script(slot, Some(p), sent, calls, {(Request(slot, first), answer)});
      s.calls == calls && Mistaken(s, slot) && s.nodes[slot.node][slot.token] == p
  {
    assert RequestOf(slot.node, slot.token, Fresh(slot, second)) != Request(slot, first);
  }

  // Any slot that serves two requests: the late reply to a finished call is taken for the reply of
  // a new call that draws the same token.
  lemma ReusedToken(retries: nat, slot: Slot, first: Bytes, second: Bytes, answer: Bytes)
    returns (states: seq<State>, steps: seq<Step>)
    requires first != second
    ensures Run(retries, states, steps)
    ensures var s := states[|steps|];
      && s.calls == {SlotCall(slot, first), SlotCall(slot, second)} && Mistaken(s, slot)
      && s.nodes[slot.node][slot.token].request == second && s.nodes[slot.node][slot.token].response == Some(answer)
  {
    FirstCall(retries, slot, first, answer);
    SecondCall(retries, slot, first, second, answer);
    var r, asked, again := Request(slot, first), Fresh(slot, first), Fresh(slot, second);
    var sent, served, one := {r, ReplyTo(r, answer)}, {(r, answer)}, {SlotCall(slot, first)};
    var both := {SlotCall(slot, first), SlotCall(slot, second)};
    EndsMistaken(slot, first, second, answer, sent, both);
    assert Initial(Script(slot, None, {}, {}, {}));
    hide NextBy, Script, Initial, Mistaken;
    states := [
      Script(slot, None, {}, {}, {}), Script(slot, Some(asked), {}, one, {}),
      Script(slot, Some(asked.(attempts := 1)), {r}, one, {}), Script(slot, Some(asked.(attempts := 1)), sent, one, served),
      Script(slot, None, sent, one, served), Script(slot, Some(again), sent, both, served),
      Script(slot, Some(again.(response := Some(answer))), sent, both, served)];
    steps := [
      Register(slot.node, slot.token, slot.address, slot.kind, first), Transmit(slot.node, slot.token), Serve(r, answer),
      Finish(slot.node, slot.token), Register(slot.node, slot.token, slot.address, slot.kind, second),
      Receive(ReplyTo(r, answer))];
  }

  // Two nodes, one of which has the given call in flight.
  function Script(
    slot: Slot, call: Option<Pending>, sent: set<Packet>, calls: set<Registration>, served: set<(Packet, Bytes)>): State
  {
    var idle: map<Token, Pending> := map[];
    State(
      map[slot.address := idle][slot.node := if call.None? then idle else map[slot.token := call.value]], sent, calls, served)
  }

  lemma Scripted(
    slot: Slot, before: Option<Pending>, after: Option<Pending>, sent: set<Packet>, calls: set<Registration>,
    served: set<(Packet, Bytes)>)
    ensures var s, t := Script(slot, before, sent, calls, served), Script(slot, after, sent, calls, served);
      && slot.node in s.nodes && slot.address in s.nodes
      && s.sent == sent && s.calls == calls && s.served == served
      && (slot.token in s.nodes[slot.node] <==> before.Some?)
      && (before.Some? ==> s.nodes[slot.node][slot.token] == before.value)
      && (after.Some? ==> Put(s, slot.node, slot.token, after.value) == t)
      && (after.None? ==> s.(nodes := s.nodes[slot.node := s.nodes[slot.node] - {slot.token}]) == t)
  {
    var s, t := Script(slot, before, sent, calls, served), Script(slot, after, sent, calls, served);
    if after.Some? {
      assert s.nodes[slot.node][slot.token := after.value] == t.nodes[slot.node];
      assert Put(s, slot.node, slot.token, after.value).nodes == t.nodes;
    } else {
      assert s.nodes[slot.node] - {slot.token} == t.nodes[slot.node];
      assert s.nodes[slot.node := s.nodes[slot.node] - {slot.token}] == t.nodes;
    }
  }
}
