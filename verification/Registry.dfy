/** Every connected client under one lock, changed in place: each method makes
    of a client exactly what the value-level policy says. */
module Registry {
  import opened Options
  import opened TerminalTypes
  import opened Handles
  import H = Handles

  class ClientRegistry {
    var clients: map<ClientId, Handle>

    constructor ()
      ensures clients == map[]
    {
      clients := map[];
    }

    method Register(id: ClientId)
      modifies this
      ensures clients == old(clients)[id := FRESH]
    {
      clients := clients[id := FRESH];
    }

    method Unregister(id: ClientId)
      modifies this
      ensures clients == old(clients) - {id}
    {
      clients := clients - {id};
    }

    method SendTo(id: ClientId, m: Message) returns (sent: bool)
      modifies this
      ensures sent == (id in old(clients) && CanSend(old(clients)[id]))
      ensures clients == if sent then old(clients)[id := Send(old(clients)[id], m)] else old(clients)
    {
      sent := id in clients && CanSend(clients[id]);
      if sent {
        clients := clients[id := Send(clients[id], m)];
      }
    }

    method BeginAttach(id: ClientId, t: TerminalId)
      modifies this
      ensures clients == if id in old(clients)
                         then old(clients)[id := H.BeginAttach(old(clients)[id], t)] else old(clients)
    {
      if id in clients {
        var c := clients[id];
        c := c.(subscriptions := c.subscriptions + {t});
        c := c.(behind := c.behind - {t});
        c := c.(attaching := c.attaching[t := false]);
        clients := clients[id := c];
      }
    }

    /** Returns whether a delta was withheld since `BeginAttach`. */
    method FinishAttach(id: ClientId, t: TerminalId) returns (missed: bool)
      modifies this
      ensures missed == (id in old(clients) && Missed(old(clients)[id], t))
      ensures clients == if id in old(clients)
                         then old(clients)[id := H.FinishAttach(old(clients)[id], t)] else old(clients)
    {
      if id !in clients { return false; }
      var c := clients[id];
      missed := t in c.attaching && c.attaching[t];
      c := c.(attaching := c.attaching - {t});
      if missed && t in c.subscriptions {
        c := c.(behind := c.behind + {t});
      }
      clients := clients[id := c];
    }

    method Unsubscribe(id: ClientId, t: TerminalId)
      modifies this
      ensures clients == if id in old(clients)
                         then old(clients)[id := H.Unsubscribe(old(clients)[id], t)] else old(clients)
    {
      if id in clients {
        var c := clients[id];
        c := c.(subscriptions := c.subscriptions - {t}, behind := c.behind - {t});
        c := c.(attaching := c.attaching - {t}, finished := c.finished - {t});
        clients := clients[id := c];
      }
    }

    /** `built` is whether some client's turn needed the resync snapshot. */
    method RouteTerminalDelta(t: TerminalId, delta: TerminalDelta, resync: TerminalSnapshot)
      returns (built: bool)
      modifies this
      ensures clients == map id | id in old(clients) :: RouteDelta(old(clients)[id], t, delta, resync)
      ensures built <==> exists id :: id in old(clients) && WantsResync(old(clients)[id], t)
    {
      var todo := clients.Keys;
      built := false;
      while todo != {}
        invariant todo <= clients.Keys == old(clients).Keys
        invariant forall id :: id in todo ==> clients[id] == old(clients)[id]
        invariant forall id :: id in old(clients) && id !in todo ==>
                    clients[id] == RouteDelta(old(clients)[id], t, delta, resync)
        invariant built <==> exists id :: id in old(clients) && id !in todo && WantsResync(old(clients)[id], t)
        decreases |todo|
      {
        var id :| id in todo;
        var c := clients[id];
        built := built || WantsResync(c, t);
        c := RouteOneClient(c, t, delta, resync);
        clients := clients[id := c];
        todo := todo - {id};
      }
    }

    /** One client's turn, as the loop body takes it. */
    static method RouteOneClient(h: Handle, t: TerminalId, delta: TerminalDelta, resync: TerminalSnapshot)
      returns (c: Handle)
      ensures c == RouteDelta(h, t, delta, resync)
    {
      c := h;
      if t !in c.subscriptions { return; }
      if t in c.attaching {
        c := c.(attaching := c.attaching[t := true]);
        return;
      }
      if t in c.behind {
        if |c.queue| > DELTA_LOW_WATER { return; }
        if CanSend(c) {
          c := Send(c, ResyncMessage(t, resync));
          c := c.(behind := c.behind - {t});
        }
        return;
      }
      if |c.queue| >= DELTA_HIGH_WATER || !CanSend(c) {
        c := c.(behind := c.behind + {t});
      } else {
        c := Send(c, DeltaMessage(t, delta));
      }
    }

    method NeedsResync(id: ClientId) returns (needed: bool)
      ensures needed == (id in clients && clients[id].behind != {})
    {
      needed := id in clients && clients[id].behind != {};
    }

    /** The order in which a hash set yields the lagging terminals is not
        specified; `order` is the one this call met. */
    method Recover(id: ClientId, live: map<TerminalId, TerminalSnapshot>) returns (order: seq<TerminalId>)
      modifies this
      ensures id !in old(clients) ==> clients == old(clients)
      ensures id in old(clients) ==> IsOrderOf(order, old(clients)[id].behind)
      ensures id in old(clients) ==>
                clients == old(clients)[id := H.Recover(old(clients)[id], order, live)]
    {
      if id !in clients { return []; }
      order := Listing(clients[id].behind);
      var c := clients[id];
      var i := 0;
      while i < |order|
        invariant i <= |order|
        invariant H.Recover(c, order[i..], live) == H.Recover(clients[id], order, live)
      {
        if |c.queue| > DELTA_LOW_WATER { break; }
        var t := order[i];
        assert order[i..][0] == t && order[i..][1..] == order[i + 1..];
        var event := RecoveryEvent(c, t, live);
        if event.Some? && !CanSend(c) {
          c := c.(finished := c.finished[t := event.value]);
          clients := clients[id := c];
          return;
        }
        if event.Some? {
          c := Send(c, ResyncMessage(t, event.value));
        } else {
          assert c.finished - {t} == c.finished;
        }
        c := c.(behind := c.behind - {t}, finished := c.finished - {t});
        i := i + 1;
      }
      clients := clients[id := c];
    }

    static method Listing(ids: set<TerminalId>) returns (order: seq<TerminalId>)
      ensures IsOrderOf(order, ids)
    {
      order := [];
      var rest := ids;
      while rest != {}
        invariant rest <= ids
        invariant IsOrderOf(order, ids - rest)
        decreases |rest|
      {
        var t :| t in rest;
        order := order + [t];
        rest := rest - {t};
      }
    }

    /** Keep the final grid for clients that still owe a resync. */
    method FinishTerminal(t: TerminalId, last: TerminalSnapshot)
      modifies this
      ensures clients == map id | id in old(clients) :: H.FinishTerminal(old(clients)[id], t, last)
    {
      var todo := clients.Keys;
      while todo != {}
        invariant todo <= clients.Keys == old(clients).Keys
        invariant forall id :: id in todo ==> clients[id] == old(clients)[id]
        invariant forall id :: id in old(clients) && id !in todo ==>
                    clients[id] == H.FinishTerminal(old(clients)[id], t, last)
        decreases |todo|
      {
        var id :| id in todo;
        var c := clients[id];
        if t in c.behind || Missed(c, t) {
          clients := clients[id := c.(finished := c.finished[t := last])];
        }
        todo := todo - {id};
      }
    }
  }
}
