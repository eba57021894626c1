/** Event types and codes of the Linux input subsystem (linux/input-event-codes.h). */
module InputCodes {
  const EV_SYN: int := 0x00
  const EV_KEY: int := 0x01
  const EV_ABS: int := 0x03
  const SYN_REPORT: int := 0
  const BTN_LEFT: int := 0x110
  const ABS_MT_TRACKING_ID: int := 0x39

  /** The tracking id the multi-touch type B protocol reports when a contact is lifted. */
  const LiftedTrackingId: int := -1
}
