/**
 Rules for supervision envelopes on the wire (cluster/src/supervision_validate.rs:9-71) and
 what the broker answers (concurrency/src/cluster/supervision_broker.rs:181-298).
 */
module SupervisionValidate {

  const MAX_INIT_BYTES: nat := 64 * 1024

  datatype OneWay = Signal | ChildExit | Down | Monitor | Demonitor | Link | Unlink

  datatype SpawnSpec = Worker(initBytes: nat) | NamedSpec

  /** Of a spawn request, only what decides its fate: where to, how large, linked or not. */
  datatype Event =
    | SpawnRequest(placement: nat, spec: SpawnSpec, link: bool)
    | SpawnOk(child: nat)
    | SpawnErr(error: string)
    | Notice(kind: OneWay)

  datatype Envelope = Envelope(correlation: nat, event: Event)

  datatype Verdict = Valid | NeedsCorrelation | NeedsZero | InitTooLarge | Mismatch | WrongReply

  predicate RequiresCorrelation(e: Event) {
    e.SpawnRequest? || e.SpawnOk? || e.SpawnErr?
  }

  function ValidateEnvelope(e: Envelope): Verdict {
    if RequiresCorrelation(e.event) && e.correlation == 0 then NeedsCorrelation
    else if !RequiresCorrelation(e.event) && e.correlation != 0 then NeedsZero
    else if e.event.SpawnRequest? && e.event.spec.Worker? && e.event.spec.initBytes > MAX_INIT_BYTES then InitTooLarge
    else Valid
  }

  function ValidateReply(request: Envelope, reply: Envelope): Verdict {
    if !ValidateEnvelope(reply).Valid? then ValidateEnvelope(reply)
    else if reply.correlation != request.correlation then Mismatch
    else if request.event.SpawnRequest? && (reply.event.SpawnOk? || reply.event.SpawnErr?) then Valid
    else WrongReply
  }

  /** An envelope is good exactly when it has an id if and only if it needs one, and is not too large. */
  lemma EnvelopeValidExactly(e: Envelope)
    ensures ValidateEnvelope(e) == Valid <==>
            && (e.correlation != 0 <==> e.event.SpawnRequest? || e.event.SpawnOk? || e.event.SpawnErr?)
            && forall n :: e.event.SpawnRequest? && e.event.spec == Worker(n) ==> n <= 64 * 1024
    ensures ValidateEnvelope(e) != Mismatch && ValidateEnvelope(e) != WrongReply
  {
    if e.event.SpawnRequest? && e.event.spec.Worker? {
      assert e.event.spec == Worker(e.event.spec.initBytes);
    }
  }

  /** A reply is good exactly when it concludes a spawn request under its own, non-zero, id. */
  lemma ReplyValidExactly(request: Envelope, reply: Envelope)
    ensures ValidateReply(request, reply) == Valid <==>
            && request.event.SpawnRequest? && (reply.event.SpawnOk? || reply.event.SpawnErr?)
            && reply.correlation == request.correlation != 0
  {
  }

  /** What happens on the node: the local spawn succeeds, is refused, or registering it fails. */
  datatype SpawnOutcome = Spawned(child: nat) | Refused(error: string) | NotRegistered

  datatype Applied = Reply(envelope: Envelope) | Silent | Failed

  function ApplySpawn(local: nat, ready: bool, e: Envelope, outcome: SpawnOutcome): Applied
    requires e.event.SpawnRequest?
  {
    if e.event.placement != local then Reply(Envelope(e.correlation, SpawnErr("placement does not match local node")))
    else if e.event.link && !ready then Reply(Envelope(e.correlation, SpawnErr("supervision broker not ready")))
    else
      match outcome
      case Spawned(child) => Reply(Envelope(e.correlation, SpawnOk(child)))
      case Refused(error) => Reply(Envelope(e.correlation, SpawnErr(error)))
      case NotRegistered => Failed
  }

  /** Validation, then the broker; `noticeFails` stands for an error while a notice is applied. */
  function ApplySupervision(
    hooked: bool, local: nat, ready: bool, e: Envelope, outcome: SpawnOutcome, noticeFails: bool): Applied
  {
    if !ValidateEnvelope(e).Valid? then Failed
    else if !hooked then Silent
    else if e.event.SpawnRequest? then ApplySpawn(local, ready, e, outcome)
    else if e.event.Notice? && noticeFails then Failed
    else Silent
  }

  /**
   Whatever the broker answers, the requester accepts; only spawn requests are answered; and
   success is reported exactly for a child this node was asked for, could link, and did spawn.
   It fails exactly on a malformed envelope, a notice it cannot apply, or a child it cannot register.
   */
  lemma BrokerRepliesAreValid(hooked: bool, local: nat, ready: bool, e: Envelope, outcome: SpawnOutcome, fails: bool)
    ensures var a := ApplySupervision(hooked, local, ready, e, outcome, fails);
            && (a.Reply? ==> ValidateEnvelope(e) == Valid && ValidateReply(e, a.envelope) == Valid)
            && (a.Silent? && hooked ==> !e.event.SpawnRequest?)
            && (forall child :: a == Reply(Envelope(e.correlation, SpawnOk(child))) <==>
                  && hooked && ValidateEnvelope(e) == Valid && e.event.SpawnRequest?
                  && e.event.placement == local && (e.event.link ==> ready) && outcome == Spawned(child))
            && (a.Failed? <==>
                  || ValidateEnvelope(e) != Valid
                  || (hooked && e.event.Notice? && fails)
                  || (hooked && e.event.SpawnRequest? && e.event.placement == local && (e.event.link ==> ready)
                      && outcome.NotRegistered?))
  {
    if e.event.SpawnRequest? && ValidateEnvelope(e).Valid? && hooked {
      var a := ApplySpawn(local, ready, e, outcome);
      if a.Reply? {
        ReplyValidExactly(e, a.envelope);
      }
    }
  }
}
