/**
 * The values the hoover exchanges with its butlers and hands to its callers:
 * the registry of butlers, the per-foundation snapshot documents, and the
 * records that get stamped with the foundation they came from.
 */
module Domain {

  /** One entry of the butler registry: a foundation name and the butler's address (no scheme). */
  datatype Butler = Butler(name: string, address: string)

  /**
   * The hoover's configuration. `butlers` enumerates the name -> address map;
   * `timeoutMillis` bounds every single fetch. `sslValidationSkipped` is carried
   * for completeness: the aggregation logic never reads it.
   */
  datatype HooverSettings = HooverSettings(butlers: seq<Butler>, sslValidationSkipped: bool, timeoutMillis: nat)

  /** Two minutes, the configured default timeout. */
  const DefaultTimeoutMillis: nat := 120_000

  /** No butlers, certificate validation on, default timeout. */
  const DefaultSettings := HooverSettings([], false, DefaultTimeoutMillis)

  /** The registry is a map, so no foundation name appears twice in its enumeration. */
  ghost predicate UniqueNames(butlers: seq<Butler>)
  {
    forall i, j :: 0 <= i < j < |butlers| ==> butlers[i].name != butlers[j].name
  }

  /** The keys of the registry. */
  ghost function Names(butlers: seq<Butler>): set<string>
  {
    set b | b in butlers :: b.name
  }

  /*
   * The three record kinds. Besides the foundation they belong to, each carries
   * fields whose definitions are not part of this model; `attributes` stands for
   * all of them.
   */
  datatype AppDetail = AppDetail(foundation: string, attributes: map<string, string>)
  datatype ServiceInstanceDetail = ServiceInstanceDetail(foundation: string, attributes: map<string, string>)
  datatype AppRelationship = AppRelationship(foundation: string, attributes: map<string, string>)

  /** Category label -> count; a category that is absent counts zero. */
  type Counts = map<string, nat>
  type ApplicationCounts = Counts
  type ServiceInstanceCounts = Counts

  /**
   * A detail snapshot. Account collections are kept in the order they are
   * enumerated; the hoover's own merged document holds them sorted and
   * de-duplicated.
   */
  datatype SnapshotDetail = SnapshotDetail(
    applications: seq<AppDetail>,
    serviceInstances: seq<ServiceInstanceDetail>,
    applicationRelationships: seq<AppRelationship>,
    userAccounts: seq<string>,
    serviceAccounts: seq<string>)

  datatype SnapshotSummary = SnapshotSummary(
    applicationCounts: ApplicationCounts,
    serviceInstanceCounts: ServiceInstanceCounts)

  /** What `SnapshotDetail.builder().build()` yields: every collection empty. */
  const EmptyDetail := SnapshotDetail([], [], [], [], [])

  /** What `SnapshotSummary.builder().build()` yields: every count zero. */
  const EmptySummary := SnapshotSummary(map[], map[])

  /** What a `Mono` completes with: one value, or nothing at all. */
  datatype Option<T> = None | Some(value: T)

  /** The value a reactive pipeline completes with, or the error it terminates with. */
  datatype Result<T> = Success(value: T) | Failure(error: string)
  {
    predicate IsFailure()
    {
      Failure?
    }

    function PropagateFailure<U>(): Result<U>
      requires Failure?
    {
      Failure(error)
    }

    function Extract(): T
      requires Success?
    {
      value
    }
  }
}
