/** The answer of an instant query: it fails, it finds no series, or it gives the first series' value. */
module Prometheus {
  datatype Query = QueryFailed | NoSeries | Sample(v: real)
}
