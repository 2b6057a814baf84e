/**
 * The front end as a worker thread sees it through its two channels. The
 * worker's `recv` succeeds for the commands the front end sent before it
 * dropped its sender and fails after them; the worker's `send` succeeds for
 * the first `capacity` responses and fails once the front end has dropped its
 * receiver.
 */
module Channels {

  datatype Peer<C> = Peer(commands: seq<C>, capacity: nat)

  /** Why a worker loop ended: `recv` failed (sender dropped) or `send` failed (receiver dropped). */
  datatype LoopExit = SenderDropped | ReceiverDropped

  /**
   * How many responses a one-command/one-response loop hands to `send` before it
   * stops: one per command, up to and including the first send that fails.
   */
  function Attempted<C>(peer: Peer<C>): nat
  {
    if |peer.commands| <= peer.capacity then |peer.commands| else peer.capacity + 1
  }

  /** How a one-command/one-response loop over `peer` ends. */
  function ExitOf<C>(peer: Peer<C>): LoopExit
  {
    if |peer.commands| <= peer.capacity then SenderDropped else ReceiverDropped
  }
}
