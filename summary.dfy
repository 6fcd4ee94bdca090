/**
 * `build_machine_summary`: one row per machine, in the order machines first
 * appear among the records, with one cell per phase column and a total.
 */
module Summary {
  import opened Options
  import opened Dicts
  import opened Records
  import opened Seqs
  import Telemetry

  /** The value a record contributes to its machine's row: its duration, else its tick count. */
  function CellValue(r: Record): (v: Option<int>)
    ensures r.durationMs.Some? ==> v == r.durationMs
    ensures r.durationMs.None? ==> v == r.tickMs
  {
    if r.durationMs.Some? then r.durationMs else r.tickMs
  }

  /** Per machine, in first-seen order, the value recorded for each phase name. */
  type Machines = Dict<string, map<string, int>>

  /**
   * One turn of the grouping loop: register the machine, then record the value
   * if the record has one. A new machine goes after those already seen, and
   * no other machine changes.
   */
  function GroupStep(g: Machines, r: Record): (g2: Machines)
    requires Valid(g)
    ensures Valid(g2)
    ensures g2.keys == if r.machine in g.entries then g.keys else g.keys + [r.machine]
    ensures g2.entries.Keys == g.entries.Keys + {r.machine}
    ensures forall m :: m in g.entries && m != r.machine ==> g2.entries[m] == g.entries[m]
  {
    var g1 := if r.machine in g.entries then g else Put(g, r.machine, map[]);
    match CellValue(r)
    case None => g1
    case Some(v) => Put(g1, r.machine, g1.entries[r.machine][r.section := v])
  }

  /** The grouping of `records`, visited in order. */
  function Grouped(records: seq<Record>): (g: Machines)
    ensures Valid(g)
    decreases |records|
  {
    if records == [] then Empty()
    else GroupStep(Grouped(records[..|records| - 1]), records[|records| - 1])
  }

  /** The phase columns of the summary, in order; `WinDeploy` is not one of them. */
  const Columns: seq<string> := ["specialize", "oobeSystem", "SetupCl", "Setup", "OobeLdr", "provisioning", "PaSetup"]

  /** A summary row: the machine, one cell per column of `Columns`, and the total. */
  datatype Row = Row(machine: string, cells: seq<Option<int>>, total: Option<int>)

  /** The sum of the cells that hold a value. */
  function SumPresent(cells: seq<Option<int>>): int
    decreases |cells|
  {
    if cells == [] then 0
    else
      var last := cells[|cells| - 1];
      SumPresent(cells[..|cells| - 1]) + (if last.Some? then last.value else 0)
  }

  /** `sections.get(column)` for every column, in column order. */
  function CellsOf(sections: map<string, int>): (cells: seq<Option<int>>)
    ensures |cells| == |Columns|
    ensures forall i :: 0 <= i < |Columns| ==>
              cells[i] == if Columns[i] in sections then Some(sections[Columns[i]]) else None
  {
    seq(|Columns|, i requires 0 <= i < |Columns| => if Columns[i] in sections then Some(sections[Columns[i]]) else None)
  }

  /** The row of one machine: its cells, and their sum when that sum is positive. */
  function RowOf(machine: string, sections: map<string, int>): (row: Row)
    ensures row.machine == machine && row.cells == CellsOf(sections)
    ensures row.total.Some? <==> SumPresent(row.cells) > 0
    ensures row.total.Some? ==> row.total.value == SumPresent(row.cells)
  {
    var cells := CellsOf(sections);
    var sum := SumPresent(cells);
    Row(machine, cells, if sum > 0 then Some(sum) else None)
  }

  /** The rows of a grouping: one per machine, in the grouping's order. */
  function RowsOf(g: Machines): (rows: seq<Row>)
    requires Valid(g)
    ensures |rows| == |g.keys|
    ensures forall i :: 0 <= i < |rows| ==> g.keys[i] in g.entries && rows[i] == RowOf(g.keys[i], g.entries[g.keys[i]])
  {
    seq(|g.keys|, i requires 0 <= i < |g.keys| =>
      assert g.keys[i] in g.entries.Keys;
      RowOf(g.keys[i], g.entries[g.keys[i]]))
  }

  /** The summary of `records`: one row per grouped machine, in the grouping's order. */
  function SummaryRows(records: seq<Record>): (rows: seq<Row>)
    ensures var g := Grouped(records);
      && |rows| == |g.keys|
      && forall i :: 0 <= i < |rows| ==> g.keys[i] in g.entries && rows[i] == RowOf(g.keys[i], g.entries[g.keys[i]])
  {
    RowsOf(Grouped(records))
  }

  /** The key a record is grouped under. */
  function MachineOf(r: Record): string
  {
    r.machine
  }

  /** Every machine gets a row, whether or not its records carry a value. */
  predicate AnyMachine(m: string)
  {
    true
  }

  /**
   * The grouping registers machines exactly as assigning `d[r.machine] = r`
   * for every record would: same keys, in the same first-seen order.
   */
  lemma {:induction false} GroupedKeys(records: seq<Record>)
    ensures Grouped(records).keys == Build(Tagged(records, MachineOf, AnyMachine)).keys
    ensures Grouped(records).entries.Keys == Build(Tagged(records, MachineOf, AnyMachine)).entries.Keys
    decreases |records|
  {
    if records != [] {
      GroupedKeys(records[..|records| - 1]);
      BuildTaggedStepParts(records, MachineOf, AnyMachine);
    }
  }

  /** Some row of `rows` is for machine `m`. */
  ghost predicate HasRow(rows: seq<Row>, m: string)
  {
    exists i :: 0 <= i < |rows| && rows[i].machine == m
  }

  /** Some record of `records` is for machine `m`. */
  ghost predicate HasRecord(records: seq<Record>, m: string)
  {
    exists j :: 0 <= j < |records| && records[j].machine == m
  }

  /** A grouping has a row for a machine exactly when it registered that machine. */
  lemma RowsOfMachines(g: Machines, m: string)
    requires Valid(g)
    ensures HasRow(RowsOf(g), m) <==> m in g.entries
  {
    var rows := RowsOf(g);
    if m in g.entries {
      assert m in g.entries.Keys;
      var i :| 0 <= i < |g.keys| && g.keys[i] == m;
      assert rows[i].machine == m;
    }
  }

  /** A machine the grouping registered is the machine of some record. */
  lemma GroupedMachineRecorded(records: seq<Record>, m: string)
    requires m in Grouped(records).entries
    ensures HasRecord(records, m)
  {
    GroupedKeys(records);
    BuildTaggedHas(records, MachineOf, AnyMachine, m);
    var j :| 0 <= j < |records| && MachineOf(records[j]) == m;
  }

  /** The summary has a row for a machine exactly when some record is for that machine. */
  lemma SummaryCoversMachines(records: seq<Record>, m: string)
    ensures HasRow(SummaryRows(records), m) <==> HasRecord(records, m)
  {
    RowsOfMachines(Grouped(records), m);
    if HasRecord(records, m) {
      var j :| 0 <= j < |records| && records[j].machine == m;
      GroupedHasMachine(records, j);
    }
    if m in Grouped(records).entries {
      GroupedMachineRecorded(records, m);
    }
  }

  /**
   * Each machine has one row, and the rows follow the order in which the
   * machines first appear among the records.
   */
  lemma SummaryMachineOrder(records: seq<Record>)
    ensures var rows := SummaryRows(records);
      && (forall a, b :: 0 <= a < b < |rows| ==> rows[a].machine != rows[b].machine)
      && (forall a, b :: 0 <= a < b < |rows| ==> CarriedBefore(records, MachineOf, rows[a].machine, rows[b].machine))
  {
    GroupedKeys(records);
    BuildTaggedFirstSeen(records, MachineOf, AnyMachine);
  }

  /** The value of the last record for machine `m` and phase `c` that carries one. */
  function LastValue(records: seq<Record>, m: string, c: string): Option<int>
    decreases |records|
  {
    if records == [] then None
    else
      var r := records[|records| - 1];
      if r.machine == m && r.section == c && CellValue(r).Some? then CellValue(r)
      else LastValue(records[..|records| - 1], m, c)
  }

  /** The value grouped for machine `m` and phase `c`, if any. */
  function Lookup(g: Machines, m: string, c: string): Option<int>
  {
    if m in g.entries && c in g.entries[m] then Some(g.entries[m][c]) else None
  }

  /**
   * Each grouped value is that of the last record for the machine and phase
   * that carries a duration or a tick count: a later record overwrites an
   * earlier one, and a record with neither leaves the value alone.
   */
  lemma {:induction false} GroupedLastWins(records: seq<Record>, m: string, c: string)
    ensures Lookup(Grouped(records), m, c) == LastValue(records, m, c)
    decreases |records|
  {
    if records != [] {
      var prefix := records[..|records| - 1];
      GroupedLastWins(prefix, m, c);
      LookupStep(Grouped(prefix), records[|records| - 1], m, c);
    }
  }

  /** One grouping step overwrites the value of the record's machine and phase when the record carries one. */
  lemma LookupStep(g: Machines, r: Record, m: string, c: string)
    requires Valid(g)
    ensures Lookup(GroupStep(g, r), m, c)
            == if r.machine == m && r.section == c && CellValue(r).Some? then CellValue(r) else Lookup(g, m, c)
  {
  }

  /**
   * Every cell of the summary is the last value recorded for its machine and
   * column, a duration in preference to a tick count.
   */
  lemma SummaryCells(records: seq<Record>, i: int, k: int)
    requires 0 <= i < |SummaryRows(records)| && 0 <= k < |Columns|
    ensures SummaryRows(records)[i].cells[k] == LastValue(records, SummaryRows(records)[i].machine, Columns[k])
  {
    GroupedLastWins(records, SummaryRows(records)[i].machine, Columns[k]);
  }

  /** A row whose cells are all empty has no total. */
  lemma {:induction false} EmptyCellsNoTotal(cells: seq<Option<int>>)
    requires forall i :: 0 <= i < |cells| ==> cells[i].None?
    ensures SumPresent(cells) == 0
    decreases |cells|
  {
    if cells != [] {
      EmptyCellsNoTotal(cells[..|cells| - 1]);
    }
  }

  /** One grouping step for a registered machine and a phase that is not a column changes no cells. */
  lemma GroupStepIgnored(g: Machines, r: Record)
    requires Valid(g) && r.machine in g.entries && r.section !in Columns
    ensures GroupStep(g, r).keys == g.keys && GroupStep(g, r).entries.Keys == g.entries.Keys
    ensures forall m :: m in g.entries ==> CellsOf(GroupStep(g, r).entries[m]) == CellsOf(g.entries[m])
  {
    var g2 := GroupStep(g, r);
    forall m | m in g.entries ensures CellsOf(g2.entries[m]) == CellsOf(g.entries[m]) {
      var before, after := CellsOf(g.entries[m]), CellsOf(g2.entries[m]);
      forall k | 0 <= k < |Columns| ensures after[k] == before[k] {
        assert Columns[k] != r.section;
      }
    }
  }

  /** Two groupings with the same machines in the same order and the same cells have the same rows. */
  lemma RowsOfSameCells(g1: Machines, g2: Machines)
    requires Valid(g1) && Valid(g2) && g1.keys == g2.keys && g1.entries.Keys == g2.entries.Keys
    requires forall m :: m in g1.entries ==> CellsOf(g1.entries[m]) == CellsOf(g2.entries[m])
    ensures RowsOf(g1) == RowsOf(g2)
  {
    var a, b := RowsOf(g1), RowsOf(g2);
    forall i | 0 <= i < |a| ensures a[i] == b[i] {
      var m := g1.keys[i];
      assert CellsOf(g1.entries[m]) == CellsOf(g2.entries[m]);
    }
  }

  /** A machine that some record is for has been registered by the grouping. */
  lemma GroupedHasMachine(records: seq<Record>, j: int)
    requires 0 <= j < |records|
    ensures records[j].machine in Grouped(records).entries
  {
    GroupedKeys(records);
    BuildTaggedHas(records, MachineOf, AnyMachine, records[j].machine);
    assert MachineOf(records[j]) == records[j].machine;
  }

  /**
   * A record of a machine already seen whose phase name is not a column, such
   * as `WinDeploy` or a capitalised XML name, leaves the summary unchanged.
   */
  lemma IgnoredSection(records: seq<Record>, r: Record)
    requires r.section !in Columns
    requires HasRecord(records, r.machine)
    ensures SummaryRows(records + [r]) == SummaryRows(records)
  {
    var rs := records + [r];
    assert rs[..|rs| - 1] == records;
    var j :| 0 <= j < |records| && records[j].machine == r.machine;
    GroupedHasMachine(records, j);
    var g := Grouped(records);
    GroupStepIgnored(g, r);
    RowsOfSameCells(Grouped(rs), g);
  }

  /** The names the XML path gives three phases, and `WinDeploy`, are not columns. */
  lemma UncountedNames()
    ensures "WinDeploy" !in Columns
    ensures "Specialize" !in Columns && "Provisioning" !in Columns && "Pasetup" !in Columns
  {
  }

  /**
   * Of the names the XML path gives the eight phase tags, exactly those of
   * `oobesystem`, `setupcl`, `setup` and `oobeldr` are summary columns: the
   * capitalised `Specialize`, `Provisioning` and `Pasetup`, and `WinDeploy`,
   * never reach the summary.
   */
  lemma XmlNamesInColumns()
    ensures Telemetry.XmlSectionName("oobesystem") in Columns && Telemetry.XmlSectionName("setupcl") in Columns
    ensures Telemetry.XmlSectionName("setup") in Columns && Telemetry.XmlSectionName("oobeldr") in Columns
    ensures Telemetry.XmlSectionName("specialize") !in Columns && Telemetry.XmlSectionName("windeploy") !in Columns
    ensures Telemetry.XmlSectionName("provisioning") !in Columns && Telemetry.XmlSectionName("pasetup") !in Columns
  {
    Telemetry.XmlSectionNameSpellings();
    UncountedNames();
    assert Columns[1] == "oobeSystem" && Columns[2] == "SetupCl" && Columns[3] == "Setup" && Columns[4] == "OobeLdr";
  }

  /** The sum over two runs of cells is the sum of their sums. */
  lemma {:induction false} SumPresentAppend(a: seq<Option<int>>, b: seq<Option<int>>)
    ensures SumPresent(a + b) == SumPresent(a) + SumPresent(b)
    decreases |b|
  {
    if b != [] {
      assert (a + b)[..|a + b| - 1] == a + b[..|b| - 1];
      assert (a + b)[|a + b| - 1] == b[|b| - 1];
      SumPresentAppend(a, b[..|b| - 1]);
    } else {
      assert a + b == a;
    }
  }

  /** The sum of a single cell. */
  lemma SumPresentOne(c: Option<int>)
    ensures SumPresent([c]) == if c.Some? then c.value else 0
  {
    assert [c][..0] == [];
  }

  /** The row of a machine with only `specialize` at 100 ms: total 100, the other cells empty. */
  lemma OnlySpecializeRow()
    ensures RowOf("A", map["specialize" := 100]) == Row("A", [Some(100), None, None, None, None, None, None], Some(100))
  {
    var cells := CellsOf(map["specialize" := 100]);
    var rest: seq<Option<int>> := [None, None, None, None, None, None];
    assert cells == [Some(100)] + rest;
    SumPresentAppend([Some(100)], rest);
    SumPresentOne(Some(100));
    EmptyCellsNoTotal(rest);
  }

  /** The row of a machine with `specialize` at 100 ms and `Setup` at 200 ms: total 300, other cells empty. */
  lemma SpecializeAndSetupRow()
    ensures RowOf("B", map["specialize" := 100, "Setup" := 200])
            == Row("B", [Some(100), None, None, Some(200), None, None, None], Some(300))
  {
    var cells := CellsOf(map["specialize" := 100, "Setup" := 200]);
    var gap: seq<Option<int>> := [None, None];
    var tail: seq<Option<int>> := [None, None, None];
    assert cells == [Some(100)] + gap + [Some(200)] + tail;
    SumPresentAppend([Some(100)] + gap + [Some(200)], tail);
    SumPresentAppend([Some(100)] + gap, [Some(200)]);
    SumPresentAppend([Some(100)], gap);
    SumPresentOne(Some(100));
    SumPresentOne(Some(200));
    EmptyCellsNoTotal(gap);
    EmptyCellsNoTotal(tail);
  }

  /** The grouping loop of `build_machine_summary`. */
  method GroupByMachine(records: seq<Record>) returns (machines: Machines)
    ensures machines == Grouped(records)
  {
    machines := Empty();
    var i := 0;
    while i < |records|
      invariant 0 <= i <= |records|
      invariant machines == Grouped(records[..i])
    {
      var record := records[i];
      PrefixStep(records, i);
      if record.machine !in machines.entries {
        machines := Put(machines, record.machine, map[]);
      }
      var value := record.durationMs;
      if value.None? {
        var tick := record.tickMs;
        if tick.Some? {
          value := tick;
        }
      }
      if value.Some? {
        machines := Put(machines, record.machine, machines.entries[record.machine][record.section := value.value]);
      }
      i := i + 1;
    }
    PrefixAll(records);
  }

  /** The row loop of `build_machine_summary` for one machine: read each column and add up the values. */
  method MachineRow(machine: string, sections: map<string, int>) returns (row: Row)
    ensures row == RowOf(machine, sections)
  {
    var cells: seq<Option<int>> := [];
    var total := 0;
    var k := 0;
    while k < |Columns|
      invariant 0 <= k <= |Columns|
      invariant cells == CellsOf(sections)[..k]
      invariant total == SumPresent(cells)
    {
      var value := if Columns[k] in sections then Some(sections[Columns[k]]) else None;
      assert (cells + [value])[..k] == cells;
      cells := cells + [value];
      if value.Some? {
        total := total + value.value;
      }
      k := k + 1;
    }
    assert cells == CellsOf(sections);
    row := Row(machine, cells, if total > 0 then Some(total) else None);
  }

  /**
   * `build_machine_summary`: group the records by machine, then build each
   * machine's row, summing the column values that are present.
   */
  method BuildMachineSummary(records: seq<Record>) returns (rows: seq<Row>)
    ensures rows == SummaryRows(records)
  {
    var machines := GroupByMachine(records);
    ghost var all := SummaryRows(records);
    rows := [];
    var n := 0;
    while n < |machines.keys|
      invariant 0 <= n <= |machines.keys| == |all|
      invariant rows == all[..n]
    {
      var machine := machines.keys[n];
      assert machine in machines.entries.Keys;
      var row := MachineRow(machine, machines.entries[machine]);
      PrefixStep(all, n);
      rows := rows + [row];
      n := n + 1;
    }
    PrefixAll(all);
  }
}
