/** The values that the console stores, serialises and exchanges with its clients. */
module Models {
  import opened Wrappers

  type Bytes = seq<bv8>

  /** The settings of a client that the console passes through untouched; `packetLoss` is the bits of a float. */
  datatype Settings = Settings(
    tap: bool, stunServer: seq<string>, dns: seq<string>, inIps: seq<string>, outIps: seq<string>,
    mtu: Option<nat>, tcp: bool, useChannel: string, noProxy: bool, serverEncrypt: bool,
    cipherModel: Option<string>, finger: bool, punchModel: string, ports: Option<seq<nat>>,
    cmd: bool, firstLatency: bool, deviceName: Option<string>, packetLoss: Option<bv64>,
    packetDelay: nat, mapping: seq<string>, compressor: Option<string>, vntMapping: seq<string>,
    disableStats: bool, allowWireGuard: bool, localDev: Option<string>, disableRelay: bool,
    hook: Option<string>)

  /** A client configuration: the fields the console rewrites, and the rest. */
  datatype ClientConfig = ClientConfig(
    token: string, serverAddress: string, password: Option<string>,
    deviceId: string, name: string, ip: Option<string>, settings: Settings)

  const DEFAULT_SETTINGS := Settings(
    false,
    ["stun.miwifi.com:3478", "stun.chat.bilibili.com:3478", "stun.hitv.com:3478", "stun.cdnbye.com:3478"],
    [], [], [], None, false, "all", false, false, None, false, "all", None, false, false, None, None,
    0, [], None, [], false, false, None, false, None)

  const DEFAULT_CONFIG := ClientConfig("", "vnt.wherewego.top:29872", None, "", "", None, DEFAULT_SETTINGS)

  /** What a pushed configuration says once decrypted. */
  datatype PushPayload = PushPayload(
    deviceId: string, groupId: Option<string>, configName: Option<string>,
    configVersion: int, config: ClientConfig)

  /** The claims of a login token. */
  datatype Claims = Claims(sub: string, username: string, role: string, exp: nat)

  datatype ServerMessage =
    | HelloAck(deviceId: string, deviceToken: Option<string>, status: string)
    | ConfigPush(version: nat, encryptedConfig: string, nonce: string)
    | KickNotice(reason: string)

  /** A client message; an event report carries what the payload readers extracted from it. */
  datatype ClientMessage =
    | Hello(roomId: string, deviceId: Option<string>, deviceToken: Option<string>,
            deviceName: string, protocolVersion: nat, clientVersion: Option<string>)
    | ConfigState(configVersion: nat, groupId: Option<string>, configName: Option<string>,
                  config: ClientConfig, running: bool)
    | EventReport(eventType: string, payload: string,
                  traffic: Option<(nat, nat)>, vntsStatus: Option<(string, Option<string>)>)
    | ConfigAck(configVersion: nat)
    | Heartbeat
    | Disconnect
    | TrafficStats(up: nat, down: nat)

  /** A device edit; an absent field keeps the stored value. */
  datatype DeviceEdit = DeviceEdit(
    displayName: Option<string>, groupId: Option<string>, networkIp: Option<string>, networkNodeId: Option<string>)
}
