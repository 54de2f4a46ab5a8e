// src/kademlia/registry.go and registry_rpc.go as a protocol: replicas that walk a head's history
// without a lock, later commit it under one, and exchange heads over a network that loses,
// repeats, delays and reorders messages and carries whatever a peer cares to send.
module RegistryProtocol {
  import opened Wrappers
  import opened Ids
  import opened FindRpc
  import opened Records
  import opened Chain
  import opened Histories

  // The middle of an accept: the walk is over, the lock is not yet taken.
  datatype Pending = Pending(head: Record, links: seq<Link>)

  datatype Replica = Replica(heads: map<Id, Record>, pending: set<Pending>)

  // An update, or a head carried by a reply to a read or by a rejection.
  datatype Message = Message(to: Id, head: Record)

  datatype State = State(nodes: map<Id, Replica>, sent: set<Message>)

  datatype Step =
    | Inject(message: Message)                      // a publisher, or any peer, honest or not
    | SendHead(node: Id, key: Id, to: Id)           // distribute, handoff, reply, rejection
    | WalkHistory(node: Id, message: Message, fetch: Fetch) // accept up to the lock
    | CommitHead(node: Id, pending: Pending)        // accept from the lock on
    | Abandon(node: Id, pending: Pending)

  ghost predicate Initial(s: State) {
    s.sent == {} && forall n :: n in s.nodes ==> s.nodes[n] == Replica(map[], {})
  }

  // Messages stay in `sent`: one may be received many times, late, or never.
  ghost predicate NextBy(rules: Rules, u: Fetch, s: State, step: Step, t: State) {
    match step
    case Inject(m) => t == s.(sent := s.sent + {m})
    case SendHead(n, key, to) =>
      && n in s.nodes && key in s.nodes[n].heads
      && t == s.(sent := s.sent + {Message(to, s.nodes[n].heads[key])})
    case WalkHistory(n, m, fetch) =>
      && n in s.nodes && m in s.sent && m.to == n && Agrees(fetch, u)
      && ChainOf(rules, fetch, m.head).Some?
      && t == With(s, n, Walked(s.nodes[n], Pending(m.head, ChainOf(rules, fetch, m.head).value)))
    case CommitHead(n, p) =>
      n in s.nodes && p in s.nodes[n].pending && t == With(s, n, Locked(rules, s.nodes[n], p))
    case Abandon(n, p) =>
      n in s.nodes && t == With(s, n, s.nodes[n].(pending := s.nodes[n].pending - {p}))
  }

  function With(s: State, n: Id, r: Replica): State {
    s.(nodes := s.nodes[n := r])
  }

  function Walked(r: Replica, p: Pending): Replica {
    r.(pending := r.pending + {p})
  }

  function Locked(rules: Rules, r: Replica, p: Pending): Replica {
    Replica(AfterCommit(rules, r.heads, p.head, p.links), r.pending - {p})
  }

  ghost predicate Run(rules: Rules, u: Fetch, states: seq<State>, steps: seq<Step>) {
    && |states| == |steps| + 1 && Initial(states[0])
    && forall i :: 0 <= i < |steps| ==> NextBy(rules, u, states[i], steps[i], states[i + 1])
  }

  // ------------------------------------------------------------------ invariant

  ghost predicate GoodReplica(rules: Rules, u: Fetch, r: Replica) {
    && (forall key :: key in r.heads ==> GoodHead(rules, u, key, r.heads[key]))
    && (forall p :: p in r.pending ==> ChainOf(rules, u, p.head) == Some(p.links))
  }

  ghost predicate GoodHead(rules: Rules, u: Fetch, key: Id, head: Record) {
    key == HeadKey(rules, head) && ChainOf(rules, u, head).Some?
  }

  ghost predicate GoodState(rules: Rules, u: Fetch, s: State) {
    forall n :: n in s.nodes ==> GoodReplica(rules, u, s.nodes[n])
  }

  // The later head continues the history of the earlier one.
  ghost predicate Continued(rules: Rules, u: Fetch, older: Record, newer: Record) {
    && ChainOf(rules, u, older).Some? && ChainOf(rules, u, newer).Some?
    && IsSuffix(ChainOf(rules, u, older).value, ChainOf(rules, u, newer).value)
    && SamePackage(older, newer) && older.version <= newer.version
  }

  ghost predicate ReplicaGrew(rules: Rules, u: Fetch, before: Replica, after: Replica) {
    forall key :: key in before.heads ==> key in after.heads && Continued(rules, u, before.heads[key], after.heads[key])
  }

  ghost predicate StateGrew(rules: Rules, u: Fetch, s: State, t: State) {
    forall n :: n in s.nodes ==> n in t.nodes && ReplicaGrew(rules, u, s.nodes[n], t.nodes[n])
  }

  // ------------------------------------------------------------------ steps

  lemma ContinuedTrans(rules: Rules, u: Fetch, a: Record, b: Record, c: Record)
    requires Continued(rules, u, a, b) && Continued(rules, u, b, c)
    ensures Continued(rules, u, a, c)
  {
    hide ChainOf;
    SuffixTrans(ChainOf(rules, u, a).value, ChainOf(rules, u, b).value, ChainOf(rules, u, c).value);
  }

  lemma Unchanged(rules: Rules, u: Fetch, r: Replica)
    requires GoodReplica(rules, u, r)
    ensures ReplicaGrew(rules, u, r, r)
  {
    hide ChainOf;
    forall key | key in r.heads ensures Continued(rules, u, r.heads[key], r.heads[key]) {
      assert GoodHead(rules, u, key, r.heads[key]);
    }
  }

  // A commit decides on the head it finds, however old the walk that led to it.
  lemma LockedGrew(rules: Rules, u: Fetch, r: Replica, p: Pending)
    requires GoodReplica(rules, u, r) && p in r.pending
    ensures GoodReplica(rules, u, Locked(rules, r, p)) && ReplicaGrew(rules, u, r, Locked(rules, r, p))
  {
    hide ChainOf;
    var after := Locked(rules, r, p).heads;
    var key := HeadKey(rules, p.head);
    Unchanged(rules, u, r);
    if key in r.heads && Decide(Some(r.heads[key]), p.head, p.links) == Committed {
      assert GoodHead(rules, u, key, r.heads[key]);
      DecideIsSuffix(rules, u, r.heads[key], p.head);
      assert Continued(rules, u, r.heads[key], after[key]);
    }
    hide Decide, Continued;
    forall other | other in r.heads ensures other in after && Continued(rules, u, r.heads[other], after[other]) {
      assert Continued(rules, u, r.heads[other], r.heads[other]);
    }
    forall other | other in after ensures GoodHead(rules, u, other, after[other]) {
      assert other in r.heads ==> GoodHead(rules, u, other, r.heads[other]);
    }
  }

  lemma StepGrew(rules: Rules, u: Fetch, s: State, step: Step, t: State)
    requires GoodState(rules, u, s) && NextBy(rules, u, s, step, t)
    ensures GoodState(rules, u, t) && StateGrew(rules, u, s, t)
  {
    hide ChainOf, Agrees, ReplicaGrew, Locked;
    forall n | n in s.nodes ensures n in t.nodes && GoodReplica(rules, u, t.nodes[n])
      && ReplicaGrew(rules, u, s.nodes[n], t.nodes[n])
    {
      Unchanged(rules, u, s.nodes[n]);
      match step {
        case WalkHistory(m, message, fetch) =>
          ChainAgrees(rules, fetch, u, message.head);
          SameHeads(rules, u, s.nodes[n], t.nodes[n]);
        case CommitHead(m, p) =>
          if m == n {
            LockedGrew(rules, u, s.nodes[n], p);
          }
        case Abandon(m, p) => SameHeads(rules, u, s.nodes[n], t.nodes[n]);
        case _ =>
      }
    }
  }

  lemma SameHeads(rules: Rules, u: Fetch, a: Replica, b: Replica)
    requires ReplicaGrew(rules, u, a, a) && a.heads == b.heads
    ensures ReplicaGrew(rules, u, a, b)
  {
  }

  // ------------------------------------------------------------------ whole runs

  lemma {:induction false} RunGood(rules: Rules, u: Fetch, states: seq<State>, steps: seq<Step>, i: nat)
    requires Run(rules, u, states, steps) && i < |states|
    ensures GoodState(rules, u, states[i])
  {
    if i > 0 {
      RunGood(rules, u, states, steps, i - 1);
      StepGrew(rules, u, states[i - 1], steps[i - 1], states[i]);
    }
  }

  // Append-only heads, for every interleaving: whatever head a node holds at one time, its
  // history is a suffix of the history that node holds for the same key at every later time.
  lemma {:induction false} AppendOnly(
    rules: Rules, u: Fetch, states: seq<State>, steps: seq<Step>, i: nat, j: nat, n: Id, key: Id)
    requires Run(rules, u, states, steps) && i <= j < |states|
    requires n in states[i].nodes && key in states[i].nodes[n].heads
    ensures n in states[j].nodes && key in states[j].nodes[n].heads
    ensures Continued(rules, u, states[i].nodes[n].heads[key], states[j].nodes[n].heads[key])
  {
    hide NextBy, ChainOf, Continued;
    RunGood(rules, u, states, steps, j);
    if i == j {
      assert GoodReplica(rules, u, states[i].nodes[n]);
      Unchanged(rules, u, states[i].nodes[n]);
    } else {
      AppendOnly(rules, u, states, steps, i, j - 1, n, key);
      RunGood(rules, u, states, steps, j - 1);
      StepGrew(rules, u, states[j - 1], steps[j - 1], states[j]);
      assert ReplicaGrew(rules, u, states[j - 1].nodes[n], states[j].nodes[n]);
      ContinuedTrans(
        rules, u, states[i].nodes[n].heads[key], states[j - 1].nodes[n].heads[key], states[j].nodes[n].heads[key]);
    }
  }

  // ------------------------------------------------------------------ where heads come from

  ghost predicate WasSent(s: State, head: Record) {
    exists m :: m in s.sent && m.head == head
  }

  ghost predicate AllSent(s: State, r: Replica) {
    && (forall key :: key in r.heads ==> WasSent(s, r.heads[key]))
    && (forall p :: p in r.pending ==> WasSent(s, p.head))
  }

  lemma StillSent(s: State, t: State, r: Replica)
    requires AllSent(s, r) && s.sent <= t.sent
    ensures AllSent(t, r)
  {
    forall key | key in r.heads ensures WasSent(t, r.heads[key]) {
      assert WasSent(s, r.heads[key]);
    }
    forall p | p in r.pending ensures WasSent(t, p.head) {
      assert WasSent(s, p.head);
    }
  }

  lemma StepSent(rules: Rules, u: Fetch, s: State, step: Step, t: State)
    requires NextBy(rules, u, s, step, t) && forall n :: n in s.nodes ==> AllSent(s, s.nodes[n])
    ensures s.sent <= t.sent && forall n :: n in t.nodes ==> AllSent(t, t.nodes[n])
  {
    hide ChainOf, Agrees, WasSent, Decide;
    forall n | n in t.nodes ensures AllSent(t, t.nodes[n]) {
      StillSent(s, t, s.nodes[n]);
      if step.WalkHistory? {
        MessageSent(t, step.message);
      }
    }
  }

  lemma MessageSent(s: State, m: Message)
    requires m in s.sent
    ensures WasSent(s, m.head)
  {
  }

  // No replica makes a head up: each one that it holds was carried by a message.
  lemma {:induction false} HeadsWereSent(rules: Rules, u: Fetch, states: seq<State>, steps: seq<Step>, i: nat)
    requires Run(rules, u, states, steps) && i < |states|
    ensures forall n :: n in states[i].nodes ==> AllSent(states[i], states[i].nodes[n])
  {
    if i > 0 {
      HeadsWereSent(rules, u, states, steps, i - 1);
      StepSent(rules, u, states[i - 1], steps[i - 1], states[i]);
    }
  }

  // Over any run no replica holds a head, or any record in its history, that the owner of its
  // domain has not signed.
  lemma HeldIsSigned(rules: Rules, u: Fetch, states: seq<State>, steps: seq<Step>, i: nat, n: Id, key: Id)
    requires Run(rules, u, states, steps) && i < |states|
    requires n in states[i].nodes && key in states[i].nodes[n].heads
    ensures var head := states[i].nodes[n].heads[key];
      && key == LatestKey(rules, head.domain, head.package) && ChainOf(rules, u, head).Some?
      && OwnerSigned(rules, head)
      && forall l :: l in ChainOf(rules, u, head).value ==> OwnerSigned(rules, l.record)
  {
    hide NextBy, ChainOf;
    RunGood(rules, u, states, steps, i);
    var head := states[i].nodes[n].heads[key];
    assert GoodReplica(rules, u, states[i].nodes[n]) && GoodHead(rules, u, key, head);
    ChainSigned(rules, u, head);
  }
}
