/** The instalment rows of a Nasiya contract and the calendar they are judged by. */
module Schedules {
  import opened Results
  import opened Rounding
  import opened ProfitAllocation

  datatype ScheduleStatus = Pending | Partial | Paid | Settled | Overdue | Deferred | Cancelled

  datatype NasiyaStatus = NasiyaActive | NasiyaCompleted | NasiyaOverdue | NasiyaCancelled

  /** Milliseconds since the epoch. */
  type Time = int

  const MS_PER_DAY := 86_400_000

  const TASHKENT_OFFSET_MS := 5 * 3_600_000

  /** Amounts are whole minor units of the contract currency, or whole so'm in the legacy mirror. */
  datatype Row = Row(
    id: nat,
    dueDate: Time,
    delayedUntil: Option<Time>,
    legacyExpected: int,
    legacyPaid: int,
    expected: int,
    paid: int,
    waived: int,
    remaining: int,
    status: ScheduleStatus,
    budget: Components,
    recovered: Components)

  function TashkentDay(t: Time): int {
    (t + TASHKENT_OFFSET_MS) / MS_PER_DAY
  }

  /** A deferral, while set, replaces the due date. */
  function EffectiveDue(row: Row): Time {
    if row.delayedUntil.Some? then row.delayedUntil.value else row.dueDate
  }

  /** Due on an earlier Tashkent day than today; a row due today is not late yet. */
  predicate PastDue(row: Row, now: Time) {
    TashkentDay(EffectiveDue(row)) < TashkentDay(now)
  }

  /** Contract debt of a row as the payment allocator sees it. */
  function Outstanding(row: Row): int {
    Max(0, row.expected - row.paid)
  }

  function Expecteds(rows: seq<Row>): seq<int> {
    seq(|rows|, i requires 0 <= i < |rows| => rows[i].expected)
  }

  function Paids(rows: seq<Row>): seq<int> {
    seq(|rows|, i requires 0 <= i < |rows| => rows[i].paid)
  }

  function Waiveds(rows: seq<Row>): seq<int> {
    seq(|rows|, i requires 0 <= i < |rows| => rows[i].waived)
  }

  function Remainings(rows: seq<Row>): seq<int> {
    seq(|rows|, i requires 0 <= i < |rows| => rows[i].remaining)
  }
}
