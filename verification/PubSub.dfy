/** The broker between processes and the counter that numbers batches. */
module PubSub {
  import opened Ops

  // apps/server/src/pubsub/InMemoryPubSubBus.ts and apps/server/src/seq/InMemorySeqAllocator.ts.

  /** What is published for a batch: which process it comes from, its number and its ops. */
  datatype Message = Message(originId: string, seqNo: nat, ops: seq<Op>)

  /** The messages with which each handler was called, in order. */
  type Calls = map<nat, seq<Message>>

  function CallsOf(calls: Calls, handler: nat): seq<Message> {
    if handler in calls then calls[handler] else []
  }

  /** Every one of these handlers is called once. */
  ghost predicate Called(before: Calls, after: Calls, handlers: set<nat>, message: Message) {
    forall h :: CallsOf(after, h) == CallsOf(before, h) + (if h in handlers then [message] else [])
  }

  class InMemoryBroker {
    var subscribers: map<string, set<nat>>
    var calls: Calls

    constructor ()
      ensures subscribers == map[] && calls == map[]
    {
      subscribers, calls := map[], map[];
    }

    function Handlers(channel: string): set<nat>
      reads this`subscribers
    {
      if channel in subscribers then subscribers[channel] else {}
    }

    method Publish(channel: string, message: Message)
      modifies this`calls
      ensures Called(old(calls), calls, Handlers(channel), message)
    {
      if channel !in subscribers { return; }
      var left := subscribers[channel];
      while left != {}
        invariant left <= Handlers(channel)
        invariant Called(old(calls), calls, Handlers(channel) - left, message)
      {
        var h :| h in left;
        left := left - {h};
        calls := calls[h := CallsOf(calls, h) + [message]];
      }
    }

    method Subscribe(channel: string, handler: nat)
      modifies this`subscribers
      ensures subscribers == old(subscribers)[channel := old(Handlers(channel)) + {handler}]
    {
      var handlers := if channel in subscribers then subscribers[channel] else {};
      subscribers := subscribers[channel := handlers + {handler}];
    }

    method Unsubscribe(channel: string, handler: nat)
      modifies this`subscribers
      ensures Handlers(channel) == old(Handlers(channel)) - {handler}
      ensures forall c :: c != channel ==> Handlers(c) == old(Handlers(c))
    {
      if channel in subscribers { subscribers := subscribers[channel := subscribers[channel] - {handler}]; }
    }
  }

  /** One process's connection to the broker: one handler per channel. */
  class InMemoryPubSubBus {
    const broker: InMemoryBroker
    var handlers: map<string, nat>

    constructor (broker: InMemoryBroker)
      ensures this.broker == broker && handlers == map[]
    {
      this.broker, handlers := broker, map[];
    }

    method Publish(channel: string, message: Message)
      modifies broker`calls
      ensures Called(old(broker.calls), broker.calls, broker.Handlers(channel), message)
    {
      broker.Publish(channel, message);
    }

    method Subscribe(channel: string, handler: nat)
      modifies this`handlers, broker`subscribers
      ensures handlers == old(handlers)[channel := handler]
      ensures broker.subscribers == old(broker.subscribers)[channel := old(broker.Handlers(channel)) + {handler}]
    {
      handlers := handlers[channel := handler];
      broker.Subscribe(channel, handler);
    }

    /** Takes back what this process subscribed, and nothing of the others. */
    method Unsubscribe(channel: string)
      modifies this`handlers, broker`subscribers
      ensures handlers == old(handlers) - {channel}
      ensures broker.Handlers(channel) == old(broker.Handlers(channel))
        - (if channel in old(handlers) then {old(handlers)[channel]} else {})
      ensures forall c :: c != channel ==> broker.Handlers(c) == old(broker.Handlers(c))
    {
      if channel in handlers {
        broker.Unsubscribe(channel, handlers[channel]);
        handlers := handlers - {channel};
      }
    }
  }

  /** The shared counter of every document. */
  class InMemorySeqCounter {
    var counters: map<string, nat>

    constructor ()
      ensures counters == map[]
    {
      counters := map[];
    }

    function Current(docId: string): nat
      reads this
    {
      if docId in counters then counters[docId] else 0
    }

    /** No number is given out twice for a document, and documents do not disturb each other. */
    method Next(docId: string) returns (value: nat)
      modifies this
      ensures value == Current(docId) == old(Current(docId)) + 1
      ensures forall other :: other != docId ==> Current(other) == old(Current(other))
    {
      value := (if docId in counters then counters[docId] else 0) + 1;
      counters := counters[docId := value];
    }
  }
}
