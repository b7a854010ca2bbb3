// Limits and content types of the record and handshake protocols.

module SslConstants {
  // SSL_MAX_HANDSHAKE_FLIGHT.
  const FLIGHT := 7
  // Message numbers and epochs have 16 bits, record numbers 48.
  const SEQUENCES := 0x1_0000
  const EPOCHS := 0x1_0000
  const TWO48 := 0x1_0000_0000_0000

  const SSL3_RT_CHANGE_CIPHER_SPEC := 20
  const SSL3_RT_ALERT := 21
  const SSL3_RT_HANDSHAKE := 22
  const SSL3_RT_APPLICATION_DATA := 23
  const SSL3_RT_MAX_PLAIN_LENGTH := 16384
  const SSL3_MT_CCS := 1
}
