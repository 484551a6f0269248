/** The schedule table's rows, which of them are due, and the cron library. */
module Schedules {
  import opened Sorting
  import opened Wrappers

  type Id = string

  datatype Row = Row(cron: string, timezone: string, jobType: string, createdBy: Option<string>,
                     enabled: bool, lastRunAt: Option<int>, nextRunAt: Option<int>)

  const RUN_PIPELINE := "run_pipeline"

  /** The next instant of an expression in a time zone after a moment; absent when
      the expression does not parse or never matches again. */
  type NextAfter = (string, string, int) -> Option<int>

  /** The library's one promise. */
  ghost predicate StrictlyLater(next: NextAfter) {
    forall cron, tz, after :: next(cron, tz, after).Some? ==> next(cron, tz, after).value > after
  }

  predicate IsDue(row: Row, at: int) {
    row.enabled && row.nextRunAt.Some? && row.nextRunAt.value <= at
  }

  /** `due` lists exactly the due rows, each once, in some order. */
  ghost predicate DueListing(rows: map<Id, Row>, at: int, due: seq<Id>) {
    Distinct(due) && forall id :: id in due <==> id in rows && IsDue(rows[id], at)
  }
}
