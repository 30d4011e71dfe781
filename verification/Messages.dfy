/** The control messages that matter to the RT-slot protocol.

    A GRANT carries the epoch it was issued under (on the wire: its 32-bit word). An
    EVICT_PENDING carries the number of the eviction that sent it, a STOPPED the number of
    the EVICT_PENDING it answers and a READY_FOR_RT the epoch of the GRANT it answers.
    Those three numbers are not on the wire; they are recorded so that theorems can say
    which request an answer belongs to, and no branch of server or client reads them. */
module Messages {

  /** How CONNECT's version check and mode negotiation come out. */
  datatype Verdict = VersionMismatched | NoCommonMode | ModeChosen

  datatype ToServer =
    | Connect(clientId: string, verdict: Verdict)
    | ActivateRequest
    | ReadyForRt(grant: nat)
    | GrantDecline
    | Stopped(eviction: nat)
    | Heartbeat
    | Disconnect
    | DmabufAnnounce
    | Other

  datatype ToClient =
    | Mode(accepted: bool)
    | VersionMismatch
    | ActivateGrant(epoch: nat)
    | ActivateQueued(position: nat)
    | EvictPending(number: nat)
    | LivenessTimeout
    | Deactivate
    | DmabufAck
}
