// src/kademlia/find_node.go and find_value.go: what a caller makes of one peer's reply.
module FindRpc {
  import opened Wrappers
  import opened Ids
  import opened Nearest
  import opened Contacts

  type Bytes = seq<Byte>

  // k and alpha are positive by config.go, validate.
  datatype Config = Config(k: nat, alpha: nat, maxValueSize: nat)

  // Decoded payloads. None stands for a field that is absent or null.
  datatype NodeResponse = NodeResponse(contacts: Option<seq<Contact>>)
  datatype ValueResponse = ValueResponse(found: Option<bool>, data: Option<Bytes>, contacts: Option<seq<Contact>>)

  // One node's surroundings: identity rule, content hash, settings, own identifier, and the
  // reply each peer gives. No reply covers timeouts, send errors and undecodable payloads.
  datatype Env = Env(
    net: Addressing, digest: Bytes -> Id, cfg: Config, me: Id,
    nodeReply: Peer -> Option<NodeResponse>, valueReply: Peer -> Option<ValueResponse>)

  // The caller's view of one probe.
  datatype Outcome = Failed | Reported(contacts: seq<Peer>) | Found(data: Bytes)

  ghost predicate AllValid(net: Addressing, cs: seq<Contact>) {
    forall i :: 0 <= i < |cs| ==> Validated(net, cs[i]).Some?
  }

  // First occurrences of valid contacts, without the identifiers already seen.
  function FirstSeen(net: Addressing, cs: seq<Contact>, seen: set<Id>): seq<Peer> {
    if cs == [] then []
    else
      match Validated(net, cs[0])
      case None => FirstSeen(net, cs[1..], seen)
      case Some(p) =>
        if p.id in seen then FirstSeen(net, cs[1..], seen)
        else [p] + FirstSeen(net, cs[1..], seen + {p.id})
  }

  ghost predicate Acceptable(env: Env, cs: Option<seq<Contact>>) {
    cs.Some? && |cs.value| <= env.cfg.k && AllValid(env.net, cs.value)
  }

  ghost function NodeOutcome(env: Env, reply: Option<NodeResponse>): Outcome {
    if reply.Some? && Acceptable(env, reply.value.contacts) then
      Reported(FirstSeen(env.net, reply.value.contacts.value, {env.me}))
    else Failed
  }

  ghost function ValueOutcome(env: Env, key: Id, reply: Option<ValueResponse>): Outcome {
    if reply.None? || reply.value.found.None? then Failed
    else if reply.value.found.value then
      if reply.value.data.Some? && reply.value.contacts.None?
         && |reply.value.data.value| <= env.cfg.maxValueSize && env.digest(reply.value.data.value) == key
      then Found(reply.value.data.value)
      else Failed
    else if reply.value.data.None? && Acceptable(env, reply.value.contacts) then
      Reported(FirstSeen(env.net, reply.value.contacts.value, {env.me}))
    else Failed
  }

  // ------------------------------------------------------------------ what filtering keeps

  lemma {:induction false} FirstSeenAppend(net: Addressing, cs: seq<Contact>, c: Contact, seen: set<Id>)
    requires AllValid(net, cs) && Validated(net, c).Some?
    ensures var p, r := Validated(net, c).value, FirstSeen(net, cs, seen);
      FirstSeen(net, cs + [c], seen) == if p.id in seen || p.id in PeerIds(r) then r else r + [p]
  {
    hide Validated, Dist;
    var p := Validated(net, c).value;
    if cs == [] {
      assert FirstSeen(net, [], seen + {p.id}) == [];
      assert PeerIds(FirstSeen(net, [], seen)) == [];
    } else {
      var q := Validated(net, cs[0]).value;
      assert (cs + [c])[1..] == cs[1..] + [c];
      var next := if q.id in seen then seen else seen + {q.id};
      FirstSeenAppend(net, cs[1..], c, next);
      var rest := FirstSeen(net, cs[1..], next);
      if q.id !in seen {
        assert PeerIds([q] + rest) == [q.id] + PeerIds(rest);
      }
    }
  }

  // The kept peers of a filtered list: distinct, valid, not seen before, covering every contact.
  ghost predicate Names(net: Addressing, cs: seq<Contact>, p: Peer) {
    exists c :: c in cs && Validated(net, c) == Some(p)
  }

  ghost predicate Filtered(net: Addressing, cs: seq<Contact>, seen: set<Id>, r: seq<Peer>)
    requires AllValid(net, cs)
  {
    && Distinct(r)
    && (forall i :: 0 <= i < |r| ==> r[i].id !in seen && Names(net, cs, r[i]))
    && (forall i :: 0 <= i < |cs| ==> Validated(net, cs[i]).value.id in seen + Elems(PeerIds(r)))
  }

  lemma FilteredMore(net: Addressing, cs: seq<Contact>, c: Contact, seen: set<Id>, r: seq<Peer>)
    requires AllValid(net, cs) && Validated(net, c).Some? && AllValid(net, cs + [c]) && Filtered(net, cs, seen, r)
    ensures var p := Validated(net, c).value;
      Filtered(net, cs + [c], seen, if p.id in seen || p.id in PeerIds(r) then r else r + [p])
  {
    hide Dist, Validated, Distinct, Names;
    var p := Validated(net, c).value;
    forall q | Names(net, cs, q) ensures Names(net, cs + [c], q) {
      NamesMore(net, cs, c, q);
    }
    if p.id in seen || p.id in PeerIds(r) {
    } else {
      NamesLast(net, cs, c);
      DistinctMore(r, p);
    }
  }

  lemma NamesMore(net: Addressing, cs: seq<Contact>, c: Contact, q: Peer)
    requires Names(net, cs, q)
    ensures Names(net, cs + [c], q)
  {
    var x :| x in cs && Validated(net, x) == Some(q);
    assert x in cs + [c];
  }

  lemma NamesLast(net: Addressing, cs: seq<Contact>, c: Contact)
    requires Validated(net, c).Some?
    ensures Names(net, cs + [c], Validated(net, c).value)
  {
    assert c in cs + [c];
  }

  lemma IdsMore(r: seq<Peer>, p: Peer)
    ensures Elems(PeerIds(r + [p])) == Elems(PeerIds(r)) + {p.id}
  {
    assert PeerIds(r + [p]) == PeerIds(r) + [p.id];
    assert Elems(PeerIds(r) + [p.id]) == Elems(PeerIds(r)) + {p.id};
  }

  lemma DistinctMore(r: seq<Peer>, p: Peer)
    requires Distinct(r) && p.id !in PeerIds(r)
    ensures Distinct(r + [p]) && Elems(PeerIds(r + [p])) == Elems(PeerIds(r)) + {p.id}
  {
    IdsMore(r, p);
    forall i | 0 <= i < |r| ensures r[i].id != p.id {
      assert PeerIds(r)[i] == r[i].id;
    }
  }

  lemma {:induction false} FirstSeenFacts(net: Addressing, cs: seq<Contact>, seen: set<Id>)
    requires AllValid(net, cs)
    ensures Filtered(net, cs, seen, FirstSeen(net, cs, seen))
  {
    hide Filtered;
    var n := |cs| - 1;
    if cs == [] {
      FilteredNone(net, seen);
    } else {
      FirstSeenFacts(net, cs[..n], seen);
      assert cs == cs[..n] + [cs[n]];
      FirstSeenAppend(net, cs[..n], cs[n], seen);
      FilteredMore(net, cs[..n], cs[n], seen, FirstSeen(net, cs[..n], seen));
    }
  }

  lemma FilteredNone(net: Addressing, seen: set<Id>)
    ensures Filtered(net, [], seen, [])
  {
  }

  // ------------------------------------------------------------------ the loops

  // The loop shared by both calls: reject one invalid contact, skip self and duplicates.
  method FilterContacts(env: Env, cs: seq<Contact>) returns (r: Option<seq<Peer>>)
    ensures r.Some? <==> AllValid(env.net, cs)
    ensures r.Some? ==> r.value == FirstSeen(env.net, cs, {env.me})
  {
    var seen: set<Id> := {};
    var contacts: seq<Peer> := [];
    assert contacts == FirstSeen(env.net, cs[..0], {env.me});
    hide FirstSeen, Validated, Dist;
    for i := 0 to |cs|
      invariant AllValid(env.net, cs[..i])
      invariant contacts == FirstSeen(env.net, cs[..i], {env.me})
      invariant seen == Elems(PeerIds(contacts))
    {
      var candidate := Validated(env.net, cs[i]);
      if candidate.None? {
        return None;
      }
      var p := candidate.value;
      assert cs[..i + 1] == cs[..i] + [cs[i]];
      FirstSeenAppend(env.net, cs[..i], cs[i], {env.me});
      var self := Equals(p.id, env.me);
      if self || p.id in seen {
        continue;
      }
      IdsMore(contacts, p);
      seen := seen + {p.id};
      contacts := contacts + [p];
    }
    assert cs[..|cs|] == cs;
    return Some(contacts);
  }

  // find_node.go, SendFindContactMessage.
  method SendFindContactMessage(env: Env, peer: Peer) returns (o: Outcome)
    ensures o == NodeOutcome(env, env.nodeReply(peer))
    ensures var reply := env.nodeReply(peer);
      && !o.Found?
      && (o.Reported? <==>
        && reply.Some? && reply.value.contacts.Some? && |reply.value.contacts.value| <= env.cfg.k
        && forall i :: 0 <= i < |reply.value.contacts.value| ==> Validated(env.net, reply.value.contacts.value[i]).Some?)
  {
    var response := env.nodeReply(peer);
    if response.None? {
      return Failed;
    }
    var decoded := response.value;
    if decoded.contacts.None? || |decoded.contacts.value| > env.cfg.k {
      return Failed;
    }
    var contacts := FilterContacts(env, decoded.contacts.value);
    return if contacts.None? then Failed else Reported(contacts.value);
  }

  // find_value.go, SendFindDataMessage.
  method SendFindDataMessage(env: Env, peer: Peer, key: Id) returns (o: Outcome)
    ensures o == ValueOutcome(env, key, env.valueReply(peer))
    ensures o.Found? ==> env.digest(o.data) == key && |o.data| <= env.cfg.maxValueSize
    ensures var reply := env.valueReply(peer);
      && (o.Found? <==>
        && reply.Some? && reply.value.found == Some(true) && reply.value.data.Some? && reply.value.contacts.None?
        && |reply.value.data.value| <= env.cfg.maxValueSize && env.digest(reply.value.data.value) == key)
      && (o.Found? ==> reply.value.data == Some(o.data))
      && (o.Reported? <==>
        && reply.Some? && reply.value.found == Some(false) && reply.value.data.None? && reply.value.contacts.Some?
        && |reply.value.contacts.value| <= env.cfg.k
        && forall i :: 0 <= i < |reply.value.contacts.value| ==> Validated(env.net, reply.value.contacts.value[i]).Some?)
  {
    var response := env.valueReply(peer);
    if response.None? {
      return Failed;
    }
    var result := response.value;
    if result.found.None? {
      return Failed;
    }
    if result.found.value {
      if result.data.None? || result.contacts.Some? {
        return Failed;
      }
      if |result.data.value| > env.cfg.maxValueSize {
        return Failed;
      }
      if env.digest(result.data.value) != key {
        return Failed;
      }
      return Found(result.data.value);
    }
    if result.data.Some? || result.contacts.None? || |result.contacts.value| > env.cfg.k {
      return Failed;
    }
    var contacts := FilterContacts(env, result.contacts.value);
    return if contacts.None? then Failed else Reported(contacts.value);
  }
}
