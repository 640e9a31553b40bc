/** The events a node's connection lifecycle reports. */
module LifecycleEvents {
  import opened Wrappers

  datatype ClientErrorClass =
    | Configuration | Transport | Protocol | Identity | Gateway | RequestTimeout | EventLagged | Activation

  datatype RuntimeErrorClass = DeliverySaturated | ResultTask

  datatype DisconnectReason =
    | Client(class_: ClientErrorClass)
    | Runtime(failure: RuntimeErrorClass)
    | RuntimeEnded
    | Shutdown

  datatype RecoveryStep =
    | RetryWithDeviceToken | UpdateAuthConfiguration | UpdateAuthCredentials | WaitThenRetry
    | ReviewAuthConfiguration

  /** The recovery fields of a pairing rejection that the reconnect policy reads. */
  datatype PairingRequest = PairingRequest(pauseReconnect: Option<bool>, recommendedNextStep: Option<RecoveryStep>)

  datatype ReconnectPause =
    | DevicePairing(request: PairingRequest)
    | AuthenticationPause(detailCode: string)
    | ProtocolPause(protocolDetail: Option<string>)
    | ConfigurationPause
    | LocalIdentity

  datatype LifecycleEvent =
    | Connecting(attempt: nat)
    | Connected(attempt: nat)
    | Ready(attempt: nat)
    | Disconnected(attempt: nat, reason: DisconnectReason)
    | BackingOff(attempt: nat, delay: nat, reason: DisconnectReason)
    | Paused(attempt: nat, pause: ReconnectPause)
    | Stopped(attempt: nat, drained: bool)
}
