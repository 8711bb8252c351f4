/** The values that travel: wire frames (src/wire/frame.rs) and control entries (src/wire/control.rs). */
module Frames {
  import opened Prelude

  datatype FrameType =
    | Negotiate | Ack | Nack | Resume | ResumeResponse | Heartbeat | Error
    | TransactionPause | TransactionAbort | TransactionCompleted | SecurityUpgrade
    | DataJson | DataBinary
    | Unknown(code: nat)

  datatype Frame = Frame(frameType: FrameType, transactionId: Txid, totalLen: nat, seqNo: nat, payload: Bytes)

  /** ACK progress entry; the RESUME declaration reuses its shape. */
  datatype AckEntry = AckEntry(transactionId: Txid, highestContiguousSeq: nat, receivedFrames: nat)

  datatype ResumeStatus = Resumed | Rejected | UnknownTxn

  datatype ResumeStatusEntry = ResumeStatusEntry(transactionId: Txid, status: ResumeStatus)
}
