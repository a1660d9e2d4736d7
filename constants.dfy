/** The string tables of `GridDBConstant` (src/util/griddb_constant.ts). */
module Constants {

  // VARIABLE_QUERY_TYPES
  const GET_ALL_CONTAINERS := "CONTAINERS"
  const GET_ALL_COLUMNS := "COLUMNS"
  const GET_DATA := "DATA"

  // GRIDDB_TIMESAMPLING_TYPE
  const DAY := "DAY"
  const HOUR := "HOUR"
  const MINUTE := "MINUTE"
  const SECOND := "SECOND"
  const MILLISECOND := "MILLISECOND"

  // GRAFANA_TIME_UNITS_TYPE
  const UNIT_MILLISECOND := "ms"
  const UNIT_SECONDS := "s"
  const UNIT_MINUTES := "m"
  const UNIT_HOURS := "h"
  const UNIT_DAYS := "d"
  const UNIT_WEEKS := "w"
  const UNIT_MONTHS := "M"
  const UNIT_YEARS := "y"

  // FORMAT
  const FORMAT_TABLE := "table"
  const FORMAT_TIME_SERIES := "time-series"

  // NUMBER_TYPE_GRIDDB
  const NUMBER_TYPES: seq<string> := ["BYTE", "SHORT", "INTEGER", "LONG", "FLOAT", "DOUBLE"]

  const GRIDDB_GET_CONTAINERS_LIMIT := 1000

  // GRIDDB_CONTAINER_TYPE
  const COLLECTION := "COLLECTION"
  const TIMESERIES := "TIME_SERIES"
}
