/** The Linux input event types both proxies read (linux/input-event-codes.h). */
module InputEvents {

  const EV_SYN := 0x00
  const EV_KEY := 0x01
  const EV_REL := 0x02
  const SYN_REPORT := 0
}
