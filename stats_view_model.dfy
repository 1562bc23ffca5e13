/** The statistics screen (`StatsViewModel`): summary counters, the seven-day
    grid and the per-prayer breakdown, each recomputed into a field. */
module Stats {
  import opened Wrappers
  import opened Seqs
  import opened PrayerTypes
  import opened Models

  /** One cell of the weekly grid. */
  datatype CellStatus = NoData | CellDone | CellMissed | CellQada | Upcoming

  datatype SummaryStats = SummaryStats(currentStreak: int, bestStreak: int, totalPrayers: int, freezesAvailable: int)

  datatype PrayerBreakdownItem = PrayerBreakdownItem(prayer: PrayerType, count: nat)

  /** What the screen reads of a stored log: its day and its entries. */
  datatype DayRecord = DayRecord(date: int, entries: seq<PrayerEntry>)

  function Records(logs: seq<DailyLog>): (rs: seq<DayRecord>)
    reads set l | l in logs
    ensures |rs| == |logs|
    ensures forall i :: 0 <= i < |logs| ==> rs[i] == DayRecord(logs[i].date, logs[i].entries)
  {
    seq(|logs|, i reads set l | l in logs requires 0 <= i < |logs| => DayRecord(logs[i].date, logs[i].entries))
  }

  // Summary

  /** `computeSummaryStats`: the stored counters, or zeros without stats. */
  function Summary(stats: UserStats?): (s: SummaryStats)
    reads stats
    ensures stats == null ==> s == SummaryStats(0, 0, 0, 0)
    ensures stats != null ==> s == SummaryStats(stats.currentStreak, stats.bestStreak, stats.totalPrayers, stats.freezesAvailable)
  {
    if stats == null then SummaryStats(0, 0, 0, 0)
    else SummaryStats(stats.currentStreak, stats.bestStreak, stats.totalPrayers, stats.freezesAvailable)
  }

  // Weekly grid

  /** The cell a stored status is shown as; a pending entry is upcoming. */
  function CellOf(s: PrayerStatus): CellStatus {
    match s
    case Done => CellDone
    case Missed => CellMissed
    case Qada => CellQada
    case Pending => Upcoming
  }

  /** Reads a cell back as the status it shows, if it shows one. */
  function StatusOf(c: CellStatus): Option<PrayerStatus> {
    match c
    case NoData => None
    case CellDone => Some(Done)
    case CellMissed => Some(Missed)
    case CellQada => Some(Qada)
    case Upcoming => Some(Pending)
  }

  function ForPrayer(p: PrayerType): PrayerEntry -> bool {
    (e: PrayerEntry) => e.prayer == p
  }

  function OnDay(day: int): DayRecord -> bool {
    (r: DayRecord) => r.date == day
  }

  /** The cell for prayer `p` on a day: no data without a log or without an entry for
      `p`, otherwise the status of the first entry for `p`. */
  function Cell(log: Option<DayRecord>, p: PrayerType): CellStatus {
    if log.None? then NoData
    else match First(log.value.entries, ForPrayer(p))
      case None => NoData
      case Some(e) => CellOf(e.status)
  }

  /** One grid row: a cell per prayer, in prayer order. */
  function Row(log: Option<DayRecord>): (row: seq<CellStatus>)
    ensures |row| == 5
    ensures forall i :: 0 <= i < 5 ==> row[i] == Cell(log, AllCases[i])
  {
    seq(5, i requires 0 <= i < 5 => Cell(log, AllCases[i]))
  }

  /** `computeWeeklyGrid`: seven rows, the last one for `today`, each row from the
      first log dated that day. */
  function Grid(records: seq<DayRecord>, today: int): (grid: seq<seq<CellStatus>>)
    ensures |grid| == 7
    ensures forall offset :: 0 <= offset < 7 ==>
      |grid[offset]| == 5 && grid[offset] == Row(First(records, OnDay(today - (6 - offset))))
  {
    var grid := seq(7, offset requires 0 <= offset < 7 => Row(First(records, OnDay(today - (6 - offset)))));
    assert forall offset :: 0 <= offset < 7 ==> grid[offset] == Row(First(records, OnDay(today - (6 - offset))));
    grid
  }

  /** No status is lost in the grid: distinct statuses give distinct cells, and
      no status is shown as "no data". */
  lemma CellOfInjective(s: PrayerStatus)
    ensures StatusOf(CellOf(s)) == Some(s)
  {
  }

  /** A cell shows data exactly when the day has a log holding an entry for that
      prayer, and it then shows the status of the first such entry. */
  lemma CellShowsFirstEntry(log: Option<DayRecord>, p: PrayerType)
    ensures Cell(log, p) == NoData <==>
      log.None? || forall j :: 0 <= j < |log.value.entries| ==> log.value.entries[j].prayer != p
    ensures log.Some? && FirstIndex(log.value.entries, ForPrayer(p)).Some? ==>
      var i := FirstIndex(log.value.entries, ForPrayer(p)).value;
      log.value.entries[i].prayer == p && StatusOf(Cell(log, p)) == Some(log.value.entries[i].status)
  {
    if log.Some? {
      var es := log.value.entries;
      assert forall j :: 0 <= j < |es| ==> (ForPrayer(p)(es[j]) <==> es[j].prayer == p);
    }
  }

  // Breakdown

  /** Entries of prayer `p` that are done or qada. */
  function PrayerCompleted(es: seq<PrayerEntry>, p: PrayerType): (n: nat)
    ensures n <= |es|
  {
    if es == [] then 0
    else
      var e := es[|es| - 1];
      PrayerCompleted(es[..|es| - 1], p) + (if e.prayer == p && IsCompleted(e) then 1 else 0)
  }

  /** The left fold over the logs of `computePrayerBreakdown`. */
  function PrayerTotal(records: seq<DayRecord>, p: PrayerType): nat {
    if records == [] then 0
    else PrayerTotal(records[..|records| - 1], p) + PrayerCompleted(records[|records| - 1].entries, p)
  }

  /** `computePrayerBreakdown`: one item per prayer, in prayer order. */
  function Breakdown(records: seq<DayRecord>): (items: seq<PrayerBreakdownItem>)
    ensures |items| == 5
    ensures forall i :: 0 <= i < 5 ==> items[i] == PrayerBreakdownItem(AllCases[i], PrayerTotal(records, AllCases[i]))
  {
    seq(5, i requires 0 <= i < 5 => PrayerBreakdownItem(AllCases[i], PrayerTotal(records, AllCases[i])))
  }

  function SumCounts(items: seq<PrayerBreakdownItem>): nat {
    if items == [] then 0 else SumCounts(items[..|items| - 1]) + items[|items| - 1].count
  }

  /** Completed entries over all logs, by `DailyLog.completedCount`. */
  function TotalCompleted(records: seq<DayRecord>): nat {
    if records == [] then 0
    else TotalCompleted(records[..|records| - 1]) + CompletedCount(records[|records| - 1].entries)
  }

  /** Every completed entry of a day is counted under exactly one prayer. */
  lemma {:induction false} PrayersPartitionDay(es: seq<PrayerEntry>)
    ensures PrayerCompleted(es, Fajr) + PrayerCompleted(es, Dhuhr) + PrayerCompleted(es, Asr)
          + PrayerCompleted(es, Maghrib) + PrayerCompleted(es, Isha) == CompletedCount(es)
  {
    if es != [] {
      PrayersPartitionDay(es[..|es| - 1]);
    }
  }

  lemma {:induction false} PrayersPartitionLogs(records: seq<DayRecord>)
    ensures PrayerTotal(records, Fajr) + PrayerTotal(records, Dhuhr) + PrayerTotal(records, Asr)
          + PrayerTotal(records, Maghrib) + PrayerTotal(records, Isha) == TotalCompleted(records)
  {
    if records != [] {
      PrayersPartitionLogs(records[..|records| - 1]);
      PrayersPartitionDay(records[|records| - 1].entries);
    }
  }

  /** Summed over the prayers, the breakdown counts every completed entry of every
      log once: it equals the sum of the logs' completed counts. */
  lemma BreakdownSum(records: seq<DayRecord>)
    ensures SumCounts(Breakdown(records)) == TotalCompleted(records)
  {
    var items := Breakdown(records);
    assert SumCounts(items[..1]) == items[0].count by {
      assert items[..1][..0] == [];
    }
    assert SumCounts(items[..2]) == SumCounts(items[..1]) + items[1].count by {
      assert items[..2][..1] == items[..1];
    }
    assert SumCounts(items[..3]) == SumCounts(items[..2]) + items[2].count by {
      assert items[..3][..2] == items[..2];
    }
    assert SumCounts(items[..4]) == SumCounts(items[..3]) + items[3].count by {
      assert items[..4][..3] == items[..3];
    }
    assert SumCounts(items) == SumCounts(items[..4]) + items[4].count;
    PrayersPartitionLogs(records);
  }

  /** The statistics screen's state. The fetched stats and logs (in date order)
      are held by reference. */
  class StatsViewModel {
    var summaryStats: SummaryStats
    var weeklyGrid: seq<seq<CellStatus>>
    var prayerBreakdown: seq<PrayerBreakdownItem>
    var logs: seq<DailyLog>
    var stats: UserStats?

    /** The screen over the fetched records, before anything is computed. */
    constructor (logs: seq<DailyLog>, stats: UserStats?)
      ensures this.logs == logs && this.stats == stats
      ensures summaryStats == SummaryStats(0, 0, 0, 0) && weeklyGrid == [] && prayerBreakdown == []
    {
      this.logs := logs;
      this.stats := stats;
      summaryStats := SummaryStats(0, 0, 0, 0);
      weeklyGrid := [];
      prayerBreakdown := [];
    }

    method ComputeSummaryStats()
      modifies this`summaryStats
      ensures summaryStats == Summary(stats)
    {
      summaryStats := Summary(stats);
    }

    /** `today` is the day number of the current start of day. */
    method ComputeWeeklyGrid(today: int)
      modifies this`weeklyGrid
      ensures weeklyGrid == Grid(Records(logs), today)
    {
      weeklyGrid := Grid(Records(logs), today);
    }

    method ComputePrayerBreakdown()
      modifies this`prayerBreakdown
      ensures prayerBreakdown == Breakdown(Records(logs))
    {
      prayerBreakdown := Breakdown(Records(logs));
    }
  }
}
