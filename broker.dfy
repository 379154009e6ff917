/** The broker as seen by the core: a log of the messages that BasicPublish
    accepted, in order, and a log of the delivery tags that were acknowledged. */
module Messaging {
  import opened Common

  /** One message handed to the broker: the routing key (queue) and the body. */
  datatype Delivery = Delivery(queue: QueueName, payload: Payload)

  class Broker {
    /** Every message published so far, oldest first. */
    var log: seq<Delivery>
    /** Every delivery tag acknowledged so far, oldest first. */
    var acks: seq<nat>

    constructor ()
      ensures log == [] && acks == []
    {
      log := [];
      acks := [];
    }

    method Publish(d: Delivery)
      modifies this
      ensures log == old(log) + [d] && acks == old(acks)
    {
      log := log + [d];
    }

    method Ack(tag: nat)
      modifies this
      ensures acks == old(acks) + [tag] && log == old(log)
    {
      acks := acks + [tag];
    }
  }
}
