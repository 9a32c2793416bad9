/**
 * What the embedded reports have in common: the columns and filters they
 * declare, the content mode, and reading optional entries of the data
 * array handed to their constructors.
 */
module EmbeddedReport {
  import opened Php

  /** A report column: the option group and the option within it. */
  datatype ReportColumn = ReportColumn(group: string, value: string)

  /** A report filter, shown under the advanced options or not. */
  datatype ReportFilter = ReportFilter(group: string, value: string, advanced: bool)

  /** No two columns show the same option: the report builder keys columns by group and option. */
  predicate DistinctColumns(cs: seq<ReportColumn>) {
    forall i, j :: 0 <= i < j < |cs| ==> (cs[i].group, cs[i].value) != (cs[j].group, cs[j].value)
  }

  /** No two filters filter on the same option. */
  predicate DistinctFilters(fs: seq<ReportFilter>) {
    forall i, j :: 0 <= i < j < |fs| ==> (fs[i].group, fs[i].value) != (fs[j].group, fs[j].value)
  }

  /** REPORT_BUILDER_CONTENT_MODE_NONE: the report's content is not restricted. */
  const ContentModeNone := 0

  /**
   * `array_key_exists($key, $data) ? $data[$key] : null`: the entry for
   * `key`, or null when there is none.
   */
  function Lookup(data: map<string, Value>, key: string): (v: Value)
    ensures key !in data ==> v == Null
    ensures key in data ==> v == data[key]
  {
    if key in data then data[key] else Null
  }
}
