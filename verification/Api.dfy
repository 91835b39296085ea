/** The parts of the operator's API objects that several components share. */
module Api {

  /** Namespace and name of an object. */
  datatype Key = Key(namespace: string, name: string)

  /** A server's status for one plugin. */
  datatype PluginStatus = PluginStatus(
    ref: Key, currentVersion: string, installedJar: string, pendingDeletion: bool,
    resolvedVersion: string, desiredVersion: string, compatible: bool, source: string)

  datatype Condition = Condition(
    kind: string, status: string, reason: string, message: string, lastTransitionTime: int, observedGeneration: int)

  ghost predicate UniqueRefs(plugins: seq<PluginStatus>) {
    forall i, j | 0 <= i < j < |plugins| :: plugins[i].ref != plugins[j].ref
  }

  /** Times are integers in nanoseconds where fractions of a second matter. */
  const SECOND := 1_000_000_000
}
