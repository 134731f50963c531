/** What one undisturbed call on a nonce manager sees and answers; shared by both managers. */
module NonceContract {
  import opened Common

  /** Acquire's errors, up to the wording of the messages that wrap them. */
  datatype AcquireError = SourceRequired | WaitEnded | DelayCancelled | FetchFailed

  /**
   What the outside world does during one Acquire: whether the context ends the wait
   for the slot, whether it ends the delay after a failed broadcast, and what
   PendingNonceAt answers (None is an error).
   */
  datatype World = World(endsWait: bool, endsDelay: bool, answer: Option<uint64>)
}
