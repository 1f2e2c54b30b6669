/** The worker process's end of a cancel: it may arrive before, during or after its
    generation. Every method runs under one lock. */
module CancelSlot {
  import opened Options
  type Id = int

  class CancelSlot {
    var active: Option<Id>
    /** The active generation's event, when there is one, and whether it is set. */
    var event: Option<bool>
    var pending: Option<Id>
    /** Every id a cancel has named, and whether this generation was told to stop. */
    ghost var named: set<Id>
    ghost var stopped: bool

    ghost predicate Valid()
      reads this
    {
      && (active.Some? <==> event.Some?)
      && (pending.Some? ==> pending.value in named)
      // A set event has a cause of its own: a cancel that named it, or a stop.
      && (event == Some(true) ==> stopped || active.value in named)
    }

    constructor ()
      ensures Valid() && active == None && pending == None && named == {}
    {
      active, event, pending, named, stopped := None, None, None, {}, false;
    }

    method Begin(id: Id)
      requires Valid() && active.None?
      modifies this
      ensures Valid() && active == Some(id) && named == old(named) && !stopped
      // A cancel that came first is honoured, and only its own generation's.
      ensures event == Some(old(pending) == Some(id))
      ensures pending == if old(pending) == Some(id) then None else old(pending)
    {
      event := Some(pending == Some(id));
      if pending == Some(id) {
        pending := None;
      }
      active, stopped := Some(id), false;
    }

    method End()
      requires Valid()
      modifies this
      ensures Valid() && active == None && event == None && pending == old(pending) && named == old(named)
    {
      active, event := None, None;
    }

    method NoteCancel(id: Id)
      requires Valid()
      modifies this
      ensures Valid() && active == old(active) && named == old(named) + {id}
      ensures old(active) == Some(id) ==> event == Some(true) && pending == old(pending)
      // A cancel for another generation leaves the active one alone.
      ensures old(active) != Some(id) ==> event == old(event) && pending == Some(id)
    {
      if active == Some(id) && event.Some? {
        event := Some(true);
      } else {
        pending := Some(id);
      }
      named := named + {id};
    }

    method RequestStop()
      requires Valid()
      modifies this
      ensures Valid() && active == old(active) && pending == old(pending) && named == old(named)
      ensures event == if old(event).Some? then Some(true) else None
    {
      if event.Some? {
        event, stopped := Some(true), true;
      }
    }
  }
}
