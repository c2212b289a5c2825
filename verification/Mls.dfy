/**
 * The MLS library and the payload seal as the client sees them: a state is an
 * epoch, its two group-context hashes, the secrets behind them and the local
 * member's place in the tree; what a state opens and what a message does to it
 * are arbitrary functions.
 */
module Mls {
  import opened Base

  type Pubkey = nat

  /** The sealed payload as it sits in the coordinator's log. */
  type Wire = nat

  /** The serialized MLS message inside a sealed payload. */
  type Opaque = nat

  datatype Fingerprint = Fingerprint(epoch: nat, treeHash: nat, transcriptHash: nat)

  datatype ClientState = ClientState(
    epoch: nat, treeHash: nat, transcriptHash: nat, secrets: nat, ownLeaf: Option<nat>, removed: bool)

  function FingerprintOf(s: ClientState): Fingerprint {
    Fingerprint(s.epoch, s.treeHash, s.transcriptHash)
  }

  datatype Event = Event(author: Pubkey, id: nat)

  /** What processing one message gives. An application message carries the
      sender its authenticated data names, if that can be read, and the event
      in its payload, if that can be read. */
  datatype Outcome =
    | NewState(state: ClientState)
    | RejectedByPolicy
    | Application(state: ClientState, sender: Option<Pubkey>, event: Option<Event>)
    | Other
    | FormerEpoch
    | StaleGeneration
    | UndecryptableStale
    | RemovedLike(senderLeaf: Option<nat>)
    | Fatal

  datatype Mls = Mls(open: (ClientState, Wire) -> Option<Opaque>, process: (ClientState, Opaque) -> Outcome)

  /** Processing never takes a state back to an earlier epoch. */
  ghost predicate NeverGoesBack(mls: Mls) {
    forall s, o ::
      match mls.process(s, o)
      case NewState(t) => t.epoch >= s.epoch
      case Application(t, _, _) => t.epoch >= s.epoch
      case _ => true
  }

  /** A message that leaves the epoch alone leaves the group context alone. */
  ghost predicate EpochNamesContext(mls: Mls) {
    forall s, o ::
      match mls.process(s, o)
      case NewState(t) => t.epoch == s.epoch ==> FingerprintOf(t) == FingerprintOf(s) && t.ownLeaf == s.ownLeaf
      case Application(t, _, _) => t.epoch == s.epoch ==> FingerprintOf(t) == FingerprintOf(s) && t.ownLeaf == s.ownLeaf
      case _ => true
  }
}
