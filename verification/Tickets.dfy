/** `QueueTicket`: the RAII handle whose drop handler gives the permit back at most once. */
module Tickets {
  import opened Flows
  import opened Drr
  import opened DrrScheduler

  class QueueTicket {
    const flow: FlowId
    const pool: DrrState
    /** Whether the drop handler is still in its `Option`. */
    var armed: bool

    /** `make_ticket` with the handler of the admission loop. */
    constructor (flow: FlowId, pool: DrrState)
      ensures armed && this.flow == flow && this.pool == pool
    {
      this.flow, this.pool, armed := flow, pool, true;
    }

    method Disarm()
      modifies this
      ensures !armed
    {
      armed := false;
    }

    /** `Drop`: run the handler if it is still there. */
    method Release()
      modifies this, pool`availablePermits
      ensures !armed
      ensures pool.Model() == old(pool.Model()).(available := old(pool.availablePermits) + (if old(armed) then 1 else 0))
    {
      if armed {
        armed := false;
        pool.ReleasePermit();
      }
    }
  }

  /** The loop's delivery of a ticket it just made for a taken permit. With a live receiver the
      ticket leaves armed and the pool is untouched; otherwise the permit is back exactly once, and
      the disarmed ticket's own drop adds nothing. */
  method Deliver(ticket: QueueTicket, receiverAlive: bool)
    requires ticket.armed
    modifies ticket, ticket.pool`availablePermits
    ensures ticket.armed == receiverAlive
    ensures ticket.pool.Model()
         == old(ticket.pool.Model()).(available := old(ticket.pool.availablePermits) + (if receiverAlive then 0 else 1))
  {
    if !receiverAlive {
      ticket.Disarm();
      ticket.pool.ReleasePermit();
      ticket.Release();
    }
  }
}
