/** String annotations of Kubernetes objects. The keys the server names are distinct
    constants of the source, one constructor each; every other key is `Custom`. */
module Annotations {
  datatype Key =
      // tentacular.io/enclave and tentacular.io/enclave-*
    | Enclave | EnclaveOwner | EnclaveOwnerSub | EnclaveMembers | EnclavePlatform
    | EnclaveChannelId | EnclaveChannelName | EnclaveStatus | EnclaveDefaultMode
    | EnclaveCreatedAt | EnclaveUpdatedAt | EnclaveQuotaPreset
      // tentacular.io/*
    | Owner | OwnerSub | OwnerEmail | OwnerName | PermissionMode | CreatedAt
    | DeployedBy | DeployedVia | DeployedAt | AuthProvider
    | UpdatedAt | UpdatedBySub | UpdatedByEmail
    | Custom(name: string)

  type Annotations = map<Key, string>

  /** A Go map read: a missing key reads as the empty string. */
  function Get(ann: Annotations, key: Key): string {
    if key in ann then ann[key] else ""
  }
}
