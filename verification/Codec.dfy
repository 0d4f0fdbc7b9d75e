/** What a framing codec answers, and what it means for bytes to be one frame. */
module Codec {
  import opened Bytes

  /** The framing violations the codecs report, one per message in the source. */
  datatype FrameError =
    | PrefixTooLong | InvalidLength | LengthOverflow | MissingComma
    | HeaderTooLong | MalformedHeader | BadContentLength | MissingContentLength | ContentLengthOverflow

  datatype Decoded =
    | NeedMore
    | Frame(message: seq<byte>, consumed: nat)
    | Bad(error: FrameError)

  /** The two errors that report how much has arrived rather than what has arrived. */
  predicate IsLengthGuard(e: FrameError) { e.PrefixTooLong? || e.HeaderTooLong? }
}
