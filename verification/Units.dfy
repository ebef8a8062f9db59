/** Constants of the data format that several components share. */
module Units {
  const NS_PER_SEC := 1_000_000_000

  /** Packets per second, and the time from one to the next. */
  const FRAMES_PER_SECOND := 62_500
  const FRAME_NS := 16_000

  /** Sample bytes in a packet. */
  const PAYLOAD_BYTES := 8192
}
