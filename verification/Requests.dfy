/** The unresolved plan requests of both versions. */
module Requests {
  import opened Canonical

  datatype PlanRequest = PlanRequest(
    candidates: seq<int>, statisticName: string, statisticParams: Value, selectionRule: string, nullName: string,
    nullParams: Value, replicates: int, alpha: real, tieTolerance: real, rootSeed: int, failurePolicy: string)

  datatype PlanRequestV2 = PlanRequestV2(
    candidates: seq<int>, statisticName: string, statisticParams: Value, selectionRule: string, nullName: string,
    nullParams: Value, replicates: int, alpha: real, tieTolerance: real, rootSeed: int)
}
