/** Requests from the manager to its agents (agent_rpc.py). Connections and calls are numbered objects;
    a call's future is its entry in `futures`. */
module RpcBroker {

  datatype Key = Key(node: string, request: string, response: string)

  datatype Reply = Reply(node: string, request: string, kind: string, payload: string)

  datatype Agent = Agent(connection: nat, capabilities: set<string>)

  datatype Outcome =
    | Waiting
    | Answered(reply: Reply, via: nat)
    | Replaced
    | Disconnected
    | TimedOut
    | Cancelled

  /** What a call asked for, and the connection it was queued on. */
  datatype Call = Call(key: Key, connection: nat)

  datatype Sent = Unavailable | Incapable | QueueFull | Queued(call: nat)

  predicate Matches(reply: Reply, key: Key) {
    reply.node == key.node && reply.request == key.request && reply.kind == key.response
  }

  ghost predicate CallFits(c: nat, calls: map<nat, Call>, futures: map<nat, Outcome>, agents: map<string, Agent>,
      pending: map<Key, nat>, woken: set<nat>)
    requires c in calls && c in futures
  {
    var call := calls[c];
    && (c !in woken ==> call.key in pending && pending[call.key] == c)
    && (c in woken ==> futures[c] != Waiting && (call.key in pending ==> pending[call.key] != c))
    && (futures[c] == Waiting ==>
         call.key.node in agents && agents[call.key.node].connection == call.connection)
    && (futures[c].Answered? ==> Matches(futures[c].reply, call.key) && futures[c].via == call.connection)
  }

  /** Unfinished calls are pending on the node's present connection; answers came over the call's own
      connection with its own key; a call that has returned has left no entry. */
  ghost predicate Fits(calls: map<nat, Call>, futures: map<nat, Outcome>, agents: map<string, Agent>,
      pending: map<Key, nat>, woken: set<nat>)
  {
    && futures.Keys == calls.Keys && woken <= calls.Keys
    && (forall c :: c in calls ==> CallFits(c, calls, futures, agents, pending, woken))
    && (forall k :: k in pending ==> pending[k] in calls && calls[pending[k]].key == k && pending[k] !in woken)
  }

  /** Finished calls stay as they finished. */
  ghost predicate Settled(before: map<nat, Outcome>, after: map<nat, Outcome>) {
    forall c :: c in before ==> c in after && (before[c] != Waiting ==> after[c] == before[c])
  }

  /** Failing a node's calls (lines 158-161). */
  ghost predicate NodeFailed(calls: map<nat, Call>, before: map<nat, Outcome>, after: map<nat, Outcome>, node: string,
      why: Outcome)
    requires before.Keys <= calls.Keys
  {
    after.Keys == before.Keys
    && forall c :: c in before ==>
      after[c] == if before[c] == Waiting && calls[c].key.node == node then why else before[c]
  }

  /** With the node's calls failed, its connection may go or change. */
  lemma FailedNodeFree(calls: map<nat, Call>, futures: map<nat, Outcome>, after: map<nat, Outcome>,
      agents: map<string, Agent>, agents': map<string, Agent>, pending: map<Key, nat>, woken: set<nat>, node: string,
      why: Outcome)
    requires Fits(calls, futures, agents, pending, woken)
    requires NodeFailed(calls, futures, after, node, why) && (why == Replaced || why == Disconnected)
    requires forall n :: n in agents && n != node ==> n in agents' && agents'[n] == agents[n]
    ensures Fits(calls, after, agents', pending, woken)
  {
    forall c | c in calls ensures CallFits(c, calls, after, agents', pending, woken) {
      assert CallFits(c, calls, futures, agents, pending, woken);
    }
  }

  /** Refreshing a node's entry under the same connection changes nothing for its calls. */
  lemma SameConnection(calls: map<nat, Call>, futures: map<nat, Outcome>, agents: map<string, Agent>,
      agents': map<string, Agent>, pending: map<Key, nat>, woken: set<nat>)
    requires Fits(calls, futures, agents, pending, woken)
    requires forall n :: n in agents ==> n in agents' && agents'[n].connection == agents[n].connection
    ensures Fits(calls, futures, agents', pending, woken)
  {
    forall c | c in calls ensures CallFits(c, calls, futures, agents', pending, woken) {
      assert CallFits(c, calls, futures, agents, pending, woken);
    }
  }

  lemma NewCall(calls: map<nat, Call>, futures: map<nat, Outcome>, agents: map<string, Agent>, pending: map<Key, nat>,
      woken: set<nat>, c: nat, key: Key)
    requires Fits(calls, futures, agents, pending, woken)
    requires c !in calls && key !in pending && key.node in agents
    ensures Fits(calls[c := Call(key, agents[key.node].connection)], futures[c := Waiting], agents, pending[key := c],
                 woken)
  {
    var calls', futures' := calls[c := Call(key, agents[key.node].connection)], futures[c := Waiting];
    forall d | d in calls' ensures CallFits(d, calls', futures', agents, pending[key := c], woken) {
      if d != c { assert CallFits(d, calls, futures, agents, pending, woken); }
    }
  }

  lemma Finish(calls: map<nat, Call>, futures: map<nat, Outcome>, agents: map<string, Agent>, pending: map<Key, nat>,
      woken: set<nat>, c: nat, outcome: Outcome)
    requires Fits(calls, futures, agents, pending, woken)
    requires c in calls && c !in woken && outcome != Waiting
    requires outcome.Answered? ==> Matches(outcome.reply, calls[c].key) && outcome.via == calls[c].connection
    ensures Fits(calls, futures[c := outcome], agents, pending, woken)
  {
    forall d | d in calls ensures CallFits(d, calls, futures[c := outcome], agents, pending, woken) {
      assert CallFits(d, calls, futures, agents, pending, woken);
    }
  }

  lemma Return(calls: map<nat, Call>, futures: map<nat, Outcome>, agents: map<string, Agent>, pending: map<Key, nat>,
      woken: set<nat>, c: nat)
    requires Fits(calls, futures, agents, pending, woken)
    requires c in calls && c !in woken && futures[c] != Waiting
    ensures calls[c].key in pending
    ensures Fits(calls, futures, agents, pending - {calls[c].key}, woken + {c})
  {
    assert CallFits(c, calls, futures, agents, pending, woken);
    forall d | d in calls ensures CallFits(d, calls, futures, agents, pending - {calls[c].key}, woken + {c}) {
      assert CallFits(d, calls, futures, agents, pending, woken);
    }
  }

  class AgentRpcBroker {
    var agents: map<string, Agent>
    var pending: map<Key, nat>
    var futures: map<nat, Outcome>
    var nextCall: nat
    /** What each suspended or finished caller holds on to. */
    var calls: map<nat, Call>
    /** Calls whose caller has been given the outcome. */
    ghost var woken: set<nat>

    ghost predicate Valid()
      reads this
    {
      && Fits(calls, futures, agents, pending, woken)
      && forall c :: c in calls ==> c < nextCall
    }

    constructor ()
      ensures Valid() && agents == map[] && calls == map[]
    {
      agents, pending, futures, nextCall, calls, woken := map[], map[], map[], 0, map[], {};
    }

    /** `known` are the agents as they were before the node's entry was touched. */
    method FailPending(ghost known: map<string, Agent>, node: string, why: Outcome)
      requires Fits(calls, futures, known, pending, woken) && why != Waiting
      modifies this`futures
      ensures NodeFailed(calls, old(futures), futures, node, why)
    {
      hide Fits;
      hide PartlyFailed;
      AllToFail(calls, futures, known, pending, woken, node, why);
      var todo := pending.Keys;
      while todo != {}
        invariant todo <= pending.Keys
        invariant PartlyFailed(calls, old(futures), futures, pending, todo, node, why)
      {
        var k :| k in todo;
        FailOne(calls, old(futures), futures, pending, todo, node, why, k);
        if k.node == node && futures[pending[k]] == Waiting {
          futures := futures[pending[k] := why];
        }
        todo := todo - {k};
      }
      AllFailed(calls, old(futures), futures, pending, node, why);
    }

    method Register(node: string, connection: nat, capabilities: set<string>)
      requires Valid()
      modifies this`agents, this`futures
      ensures Valid() && Settled(old(futures), futures)
      ensures agents == old(agents)[node := Agent(connection, capabilities)]
      ensures node in old(agents) && old(agents)[node].connection != connection ==>
        NodeFailed(calls, old(futures), futures, node, Replaced)
      ensures node !in old(agents) || old(agents)[node].connection == connection ==> futures == old(futures)
    {
      hide Fits, CallFits;
      ghost var before := agents;
      if node in agents && agents[node].connection != connection {
        FailPending(agents, node, Replaced);
        agents := agents[node := Agent(connection, capabilities)];
        FailedNodeFree(calls, old(futures), futures, before, agents, pending, woken, node, Replaced);
      } else {
        agents := agents[node := Agent(connection, capabilities)];
        SameConnection(calls, futures, before, agents, pending, woken);
      }
    }

    method Unregister(node: string, connection: nat)
      requires Valid()
      modifies this`agents, this`futures
      ensures Valid() && Settled(old(futures), futures)
      ensures node in old(agents) && old(agents)[node].connection == connection ==>
        agents == old(agents) - {node} && NodeFailed(calls, old(futures), futures, node, Disconnected)
      ensures node !in old(agents) || old(agents)[node].connection != connection ==>
        agents == old(agents) && futures == old(futures)
    {
      hide Fits, CallFits;
      if node !in agents || agents[node].connection != connection {
        return;
      }
      ghost var before := agents;
      agents := agents - {node};
      FailPending(before, node, Disconnected);
      FailedNodeFree(calls, old(futures), futures, before, agents, pending, woken, node, Disconnected);
    }

    /** A new call, correlated by a request id not in use; `room` is false if the connection's queue is full. */
    method Request(node: string, capability: string, request: string, response: string, room: bool) returns (sent: Sent)
      requires Valid() && Key(node, request, response) !in pending
      modifies this`pending, this`futures, this`nextCall, this`calls
      ensures Valid() && Settled(old(futures), futures)
      ensures sent == if node !in agents then Unavailable
        else if capability !in agents[node].capabilities then Incapable
        else if !room then QueueFull
        else Queued(old(nextCall))
      ensures sent.Queued? ==>
        calls == old(calls)[sent.call := Call(Key(node, request, response), agents[node].connection)]
      ensures sent.Queued? ==> sent.call !in old(calls) && futures == old(futures)[sent.call := Waiting]
      ensures !sent.Queued? ==> pending == old(pending) && futures == old(futures) && calls == old(calls)
    {
      hide Fits, CallFits;
      if node !in agents {
        return Unavailable;
      }
      if capability !in agents[node].capabilities {
        return Incapable;
      }
      var key := Key(node, request, response);
      NewCall(calls, futures, agents, pending, woken, nextCall, key);
      FitsKeys(calls, futures, agents, pending, woken);
      pending := pending[key := nextCall];
      if !room {
        pending := pending - {key};
        assert pending == old(pending);
        return QueueFull;
      }
      sent := Queued(nextCall);
      futures := futures[nextCall := Waiting];
      calls := calls[nextCall := Call(key, agents[node].connection)];
      nextCall := nextCall + 1;
    }

    /** A reply completes a call only on the node's present connection, under its exact key, while it waits. */
    method Resolve(reply: Reply, expected: string, connection: nat) returns (ok: bool)
      requires Valid()
      modifies this`futures
      ensures Valid() && Settled(old(futures), futures)
      ensures var key := Key(reply.node, reply.request, reply.kind);
        && (ok <==> reply.kind == expected && reply.node != "" && reply.request != ""
                    && reply.node in agents && agents[reply.node].connection == connection
                    && key in pending && pending[key] in old(futures) && old(futures)[pending[key]] == Waiting)
        && (ok ==> calls[pending[key]] == Call(key, connection)
                   && futures == old(futures)[pending[key] := Answered(reply, connection)])
        && (!ok ==> futures == old(futures))
    {
      hide Fits, CallFits;
      if reply.kind != expected {
        return false;
      }
      if reply.node == "" || reply.request == "" || reply.node !in agents
        || agents[reply.node].connection != connection {
        return false;
      }
      var key := Key(reply.node, reply.request, reply.kind);
      FitsKeys(calls, futures, agents, pending, woken);
      if key !in pending || futures[pending[key]] != Waiting {
        return false;
      }
      PendingWaits(calls, futures, agents, pending, woken, key);
      Finish(calls, futures, agents, pending, woken, pending[key], Answered(reply, connection));
      futures := futures[pending[key] := Answered(reply, connection)];
      return true;
    }

    /** wait_for gives up on a call that still waits. */
    method TimeOut(c: nat)
      requires Valid() && c in calls && c !in woken
      modifies this`futures
      ensures Valid() && Settled(old(futures), futures) && c in old(futures)
      ensures futures == if old(futures)[c] == Waiting then old(futures)[c := TimedOut] else old(futures)
    {
      hide Fits, CallFits;
      FitsKeys(calls, futures, agents, pending, woken);
      if futures[c] == Waiting {
        Finish(calls, futures, agents, pending, woken, c, TimedOut);
        futures := futures[c := TimedOut];
      }
    }

    /** The caller is cancelled while its call waits: the future is cancelled with it. */
    method Cancel(c: nat)
      requires Valid() && c in calls && c !in woken
      modifies this`futures
      ensures Valid() && Settled(old(futures), futures) && c in old(futures)
      ensures futures == if old(futures)[c] == Waiting then old(futures)[c := Cancelled] else old(futures)
    {
      hide Fits, CallFits;
      FitsKeys(calls, futures, agents, pending, woken);
      if futures[c] == Waiting {
        Finish(calls, futures, agents, pending, woken, c, Cancelled);
        futures := futures[c := Cancelled];
      }
    }

    /** The caller of a finished call resumes: it learns the outcome, unless it was itself cancelled
        after the call had finished, and its entry is gone. */
    method Wake(c: nat, cancelled: bool) returns (outcome: Outcome)
      requires Valid() && c in calls && c !in woken && c in futures && futures[c] != Waiting
      modifies this`pending, this`woken
      ensures Valid() && outcome == (if cancelled then Cancelled else futures[c]) && woken == old(woken) + {c}
      ensures calls[c].key in old(pending) && pending == old(pending) - {calls[c].key}
      ensures forall k :: k in pending ==> pending[k] != c
      ensures outcome.Answered? ==> Matches(outcome.reply, calls[c].key) && outcome.via == calls[c].connection
    {
      hide Fits, CallFits;
      FitsKeys(calls, futures, agents, pending, woken);
      Return(calls, futures, agents, pending, woken, c);
      AnswerMatches(calls, futures, agents, pending, woken, c);
      pending := pending - {calls[c].key};
      woken := woken + {c};
      outcome := if cancelled then Cancelled else futures[c];
    }
  }

  lemma FitsKeys(calls: map<nat, Call>, futures: map<nat, Outcome>, agents: map<string, Agent>, pending: map<Key, nat>,
      woken: set<nat>)
    requires Fits(calls, futures, agents, pending, woken)
    ensures futures.Keys == calls.Keys
    ensures forall k :: k in pending ==> pending[k] in calls && calls[pending[k]].key == k && pending[k] !in woken
  {
  }

  lemma PendingWaits(calls: map<nat, Call>, futures: map<nat, Outcome>, agents: map<string, Agent>,
      pending: map<Key, nat>, woken: set<nat>, key: Key)
    requires Fits(calls, futures, agents, pending, woken) && key in pending && futures[pending[key]] == Waiting
    ensures pending[key] in calls && calls[pending[key]].key == key && key.node in agents
    ensures calls[pending[key]].connection == agents[key.node].connection
  {
    assert CallFits(pending[key], calls, futures, agents, pending, woken);
  }

  lemma AnswerMatches(calls: map<nat, Call>, futures: map<nat, Outcome>, agents: map<string, Agent>,
      pending: map<Key, nat>, woken: set<nat>, c: nat)
    requires Fits(calls, futures, agents, pending, woken) && c in calls
    ensures futures[c].Answered? ==>
      var reply, key := futures[c].reply, calls[c].key;
      && reply.node == key.node && reply.request == key.request && reply.kind == key.response
      && futures[c].via == calls[c].connection
  {
    assert CallFits(c, calls, futures, agents, pending, woken);
  }

  /** The node's waiting calls outside `todo` have failed, nothing else has changed. */
  ghost predicate PartlyFailed(calls: map<nat, Call>, before: map<nat, Outcome>, after: map<nat, Outcome>,
      pending: map<Key, nat>, todo: set<Key>, node: string, why: Outcome)
  {
    && after.Keys == before.Keys == calls.Keys
    && (forall k :: k in pending ==> pending[k] in calls && calls[pending[k]].key == k)
    && (forall c :: c in before && before[c] == Waiting ==> calls[c].key in pending && pending[calls[c].key] == c)
    && (forall c :: c in before ==>
      after[c] == if before[c] == Waiting && calls[c].key.node == node && calls[c].key !in todo then why else before[c])
  }

  lemma AllToFail(calls: map<nat, Call>, futures: map<nat, Outcome>, agents: map<string, Agent>,
      pending: map<Key, nat>, woken: set<nat>, node: string, why: Outcome)
    requires Fits(calls, futures, agents, pending, woken)
    ensures PartlyFailed(calls, futures, futures, pending, pending.Keys, node, why)
  {
    forall c | c in futures && futures[c] == Waiting ensures calls[c].key in pending && pending[calls[c].key] == c {
      assert CallFits(c, calls, futures, agents, pending, woken);
    }
  }

  lemma FailOne(calls: map<nat, Call>, before: map<nat, Outcome>, after: map<nat, Outcome>, pending: map<Key, nat>,
      todo: set<Key>, node: string, why: Outcome, k: Key)
    requires PartlyFailed(calls, before, after, pending, todo, node, why)
    requires k in todo && todo <= pending.Keys && why != Waiting
    ensures pending[k] in after
    ensures var next := if k.node == node && after[pending[k]] == Waiting then after[pending[k] := why] else after;
            PartlyFailed(calls, before, next, pending, todo - {k}, node, why)
  {
    var next := if k.node == node && after[pending[k]] == Waiting then after[pending[k] := why] else after;
    forall c | c in before
      ensures next[c] == if before[c] == Waiting && calls[c].key.node == node && calls[c].key !in todo - {k}
        then why else before[c]
    {
      if c == pending[k] {
        assert calls[c].key == k;
      } else if before[c] == Waiting {
        assert calls[c].key != k;
      }
    }
  }

  lemma AllFailed(calls: map<nat, Call>, before: map<nat, Outcome>, after: map<nat, Outcome>, pending: map<Key, nat>,
      node: string, why: Outcome)
    requires PartlyFailed(calls, before, after, pending, {}, node, why)
    ensures NodeFailed(calls, before, after, node, why)
  {
  }
}
