/** The closed Connector error taxonomy (connector/errors.py). */
module Errors {

  datatype ErrorCategory = Setup | Transport | Authority | Receipt | Secret | Model | File | Backend

  datatype ErrorCode =
    | UnsupportedPlatform
    | ConnectorNotInitialized
    | ConnectorKeyLocked
    | InteractiveUnlockRequired
    | ConnectorNotPaired
    | GrantRequired
    | ConnectorStateInvalid
    | ConnectorSchemaIncompatible
    | ConnectorServiceRunning
    | ConnectorOffline
    | ConnectorTlsFailed
    | ConnectorProtocolMismatch
    | ConnectorDeadlineExceeded
    | DeviceRevoked
    | GrantRevoked
    | GrantExpired
    | GrantSuperseded
    | GrantScopeDenied
    | GrantLimitExhausted
    | PolicyRevisionStale
    | BackendUnbound
    | RequestReplayed
    | ReceiptInvalid
    | ReceiptContextMismatch
    | ReceiptExpired
    | ReceiptReplayed
    | SecretUnavailable
    | SecretBindingDenied
    | ModelPolicyDenied
    | FileGrantInvalid
    | FileChanged
    | BackendInvalidInput
    | BackendNotFound
    | BackendAuthenticationRequired
    | BackendAuthorizationDenied
    | BackendUnavailable
    | BackendIncompatible
    | BackendDeadlineExceeded
    | BackendRateLimited
    | BackendTransient
    | BackendPermanent
    | BackendContractViolation

  /** category_for_code */
  function CategoryOf(code: ErrorCode): ErrorCategory {
    match code
    case UnsupportedPlatform | ConnectorNotInitialized | ConnectorKeyLocked
      | InteractiveUnlockRequired | ConnectorNotPaired | GrantRequired
      | ConnectorStateInvalid | ConnectorSchemaIncompatible | ConnectorServiceRunning => Setup
    case ConnectorOffline | ConnectorTlsFailed | ConnectorProtocolMismatch
      | ConnectorDeadlineExceeded => Transport
    case DeviceRevoked | GrantRevoked | GrantExpired | GrantSuperseded | GrantScopeDenied
      | GrantLimitExhausted | PolicyRevisionStale | BackendUnbound | RequestReplayed => Authority
    case ReceiptInvalid | ReceiptContextMismatch | ReceiptExpired | ReceiptReplayed => Receipt
    case SecretUnavailable | SecretBindingDenied => Secret
    case ModelPolicyDenied => Model
    case FileGrantInvalid | FileChanged => File
    case _ => Backend
  }

  /** How an operation of the source ends: it returns, raises a ConnectorError, or raises
      ProtocolValidationError. */
  datatype Reply<+T> = Done(value: T) | Raised(code: ErrorCode) | Rejected
}
