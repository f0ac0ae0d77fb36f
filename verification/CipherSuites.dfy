/** The cipher and key management suites the station knows, section 9.4.2.25 of IEEE Std 802.11-2016. */
module CipherSuites {
  import opened Bytes

  type Suite = s: bytes | |s| == 4 witness Zeros(4)

  const CCMP_SUITE: Suite := [0x00, 0x0f, 0xac, 0x04]
  const TKIP_SUITE: Suite := [0x00, 0x0f, 0xac, 0x02]
  const PSK_SUITE: Suite := [0x00, 0x0f, 0xac, 0x02]
}
