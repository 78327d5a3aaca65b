/**
 * The results a query reports (iqdb/QueryResult.cs, iqdb/HaarQueryResult.cs,
 * iqdb/IntegerQueryResult.cs): the candidate's hash as lower-case hex and the
 * numbers the score is computed from.
 */
module QueryResults {
  /**
   * HaarQueryResult and IntegerQueryResult, and GridResult for the
   * four-argument `new QueryResult(hash, error, value, max)` of
   * iqdb/QueryGrid.cs:275. QueryResult is abstract and declares no such
   * constructor, so that line names a class the repository does not have;
   * GridResult stands for the result it evidently means to build.
   */
  datatype QueryResult =
    | HaarResult(hash: string, yuvDistance: real, metricValue: real, metricMax: real)
    | IntegerResult(hash: string, metricValue: real, metricMax: real)
    | GridResult(hash: string, averageError: real, metricValue: real, metricMax: real)
}
