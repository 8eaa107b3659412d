/**
 * The protocol versions the packet layer is keyed by. `ClientVersion` and `ServerVersion`
 * are enums outside this model; here each is represented by its protocol number, so two
 * versions are the same key exactly when their numbers agree, and `isOlderThan` compares
 * the numbers.
 */
module Versions {

  /** The protocol version a client connected with. */
  datatype ClientVersion = ClientVersion(protocolVersion: int)

  /** `ClientVersion.UNKNOWN`: the version of a wrapper not tied to a connection. */
  const UNKNOWN: ClientVersion := ClientVersion(-1)

  const CLIENT_1_7_10: ClientVersion := ClientVersion(5)
  const CLIENT_1_8: ClientVersion := ClientVersion(47)
  const CLIENT_1_9: ClientVersion := ClientVersion(107)
  const CLIENT_1_9_1: ClientVersion := ClientVersion(108)
  const CLIENT_1_9_2: ClientVersion := ClientVersion(109)
  const CLIENT_1_9_3: ClientVersion := ClientVersion(110)
  const CLIENT_1_10: ClientVersion := ClientVersion(210)
  const CLIENT_1_11: ClientVersion := ClientVersion(315)
  const CLIENT_1_11_1: ClientVersion := ClientVersion(316)
  const CLIENT_1_12: ClientVersion := ClientVersion(335)
  const CLIENT_1_12_1: ClientVersion := ClientVersion(338)
  const CLIENT_1_12_2: ClientVersion := ClientVersion(340)
  const CLIENT_1_13: ClientVersion := ClientVersion(393)
  const CLIENT_1_14: ClientVersion := ClientVersion(477)
  const CLIENT_1_14_1: ClientVersion := ClientVersion(480)
  const CLIENT_1_14_2: ClientVersion := ClientVersion(485)
  const CLIENT_1_14_3: ClientVersion := ClientVersion(490)
  const CLIENT_1_14_4: ClientVersion := ClientVersion(498)
  const CLIENT_1_15: ClientVersion := ClientVersion(573)
  const CLIENT_1_15_1: ClientVersion := ClientVersion(575)
  const CLIENT_1_15_2: ClientVersion := ClientVersion(578)
  const CLIENT_1_16: ClientVersion := ClientVersion(735)
  const CLIENT_1_16_1: ClientVersion := ClientVersion(736)
  const CLIENT_1_16_2: ClientVersion := ClientVersion(751)
  const CLIENT_1_16_3: ClientVersion := ClientVersion(753)
  const CLIENT_1_16_4: ClientVersion := ClientVersion(754)
  const CLIENT_1_17: ClientVersion := ClientVersion(755)
  const CLIENT_1_17_1: ClientVersion := ClientVersion(756)

  /** The version of the server the plugin runs on. */
  datatype ServerVersion = ServerVersion(protocolVersion: int)

  const SERVER_1_8: ServerVersion := ServerVersion(47)
  const SERVER_1_9: ServerVersion := ServerVersion(107)
  const SERVER_1_9_4: ServerVersion := ServerVersion(110)
  const SERVER_1_12: ServerVersion := ServerVersion(335)
  const SERVER_1_12_1: ServerVersion := ServerVersion(338)
  const SERVER_1_13: ServerVersion := ServerVersion(393)
  const SERVER_1_14: ServerVersion := ServerVersion(477)
  const SERVER_1_14_4: ServerVersion := ServerVersion(498)
  const SERVER_1_15: ServerVersion := ServerVersion(573)
  const SERVER_1_15_2: ServerVersion := ServerVersion(578)
  const SERVER_1_16: ServerVersion := ServerVersion(735)
  const SERVER_1_16_2: ServerVersion := ServerVersion(751)
  const SERVER_1_17: ServerVersion := ServerVersion(755)

  /** `ServerVersion.isOlderThan`. */
  predicate IsOlderThan(v: ServerVersion, target: ServerVersion) {
    v.protocolVersion < target.protocolVersion
  }
}
