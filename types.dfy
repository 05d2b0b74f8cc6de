/** The resource descriptor shared by the replication engine and the
    dependency-driven reconciler (pkg/types/types.go). */
module Types {

  /** A Kubernetes resource kind: its group/version, the plural resource name
      (also the sub-path of its document in OPA) and whether objects of the
      kind live in namespaces. */
  datatype ResourceType = ResourceType(
    namespaced: bool,
    resource: string,
    group: string,
    version: string)
}
