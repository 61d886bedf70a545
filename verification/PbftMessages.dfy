/** Wire-level vocabulary of the PBFT replica. */
module PbftMessages {

  /**
   * Digests are injective hashes: a request digest determines the request timestamp and a state
   * digest the sequence number. Opaque stands for any other byte string a faulty replica may send.
   */
  datatype Digest = OfRequest(ts: int) | OfState(num: nat) | OfNull | Opaque(tag: nat)

  /** What a pre-prepare, a prepare and a commit record all hold: a view, a number and a digest. */
  datatype Vote = Vote(view: nat, num: nat, digest: Digest)

  /** One re-proposal of a NEW-VIEW message. Its view is the view of the message. */
  datatype Proposal = Proposal(num: nat, digest: Digest)

  /** Signed messages. `from` is the signer. */
  datatype Message =
    | PrePrepare(from: nat, view: nat, num: nat, ts: int, digest: Digest)
    | Prepare(from: nat, view: nat, num: nat, digest: Digest)
    | Commit(from: nat, view: nat, num: nat, digest: Digest)
    | Checkpoint(from: nat, num: nat, digest: Digest)
    | ViewChange(from: nat, newView: nat, lastStable: nat, prepared: seq<Vote>)
    | NewView(from: nat, newView: nat, proposals: seq<Proposal>)

  /** What ordered delivery needs of a committed entry. */
  datatype Delivery = Delivery(num: nat, ts: int)

  /** Replica that is primary of a view in a cluster of size n. */
  function PrimaryOf(view: nat, n: nat): nat
    requires n > 0
  {
    view % n + 1
  }
}
