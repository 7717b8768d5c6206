/**
 Exit reasons, and the merge of an actor's own exit reason with the two shared
 slots that can override it (concurrency/src/error.rs, concurrency/src/exit_request.rs).
 */
module Reasons {

  type ActorId = nat

  datatype Option<+T> = None | Some(value: T)

  datatype ExitReason = Normal | Shutdown | Panic(message: string) | Kill {
    /** Reasons that make a transient child restart; `Shutdown` is not one of them. */
    predicate IsAbnormal() {
      Panic? || Kill?
    }
  }

  /** The reason an actor reports: a request wins, then its own failure, then a linked failure. */
  function Resolve(own: ExitReason, requested: Option<ExitReason>, linked: Option<ExitReason>): (r: ExitReason)
  {
    match requested
    case Some(reason) => reason
    case None =>
      if own.Normal? && linked.Some? then linked.value else own
  }

  /** A shared slot holding at most one exit reason. */
  class ReasonSlot {
    var content: Option<ExitReason>

    constructor ()
      ensures content == None
    {
      content := None;
    }

    /** Empties the slot and hands out what it held. */
    method Take() returns (was: Option<ExitReason>)
      modifies this
      ensures was == old(content) && content == None
    {
      was := content;
      content := None;
    }

    /** Keeps the first reason ever recorded. */
    method SetIfEmpty(reason: ExitReason)
      modifies this
      ensures content == if old(content).None? then Some(reason) else old(content)
    {
      if content.None? {
        content := Some(reason);
      }
    }
  }

  /** The slots are consumed in order, and the linked slot is left alone unless it decides. */
  method ResolveExitReason(own: ExitReason, requested: ReasonSlot, linked: ReasonSlot) returns (r: ExitReason)
    requires requested != linked
    modifies requested, linked
    ensures r == Resolve(own, old(requested.content), old(linked.content))
    ensures requested.content == None
    ensures linked.content ==
            if old(requested.content).None? && own.Normal? then None else old(linked.content)
  {
    var wanted := requested.Take();
    if wanted.Some? {
      return wanted.value;
    }
    if own.Normal? {
      var fromLink := linked.Take();
      if fromLink.Some? {
        return fromLink.value;
      }
    }
    return own;
  }
}
