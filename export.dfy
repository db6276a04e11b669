/**
 * The CSV export of the logbook: a header row and one row per entry, oldest first. A row is
 * modelled as its cells, the strings `csv.writer` turns the listed values into; quoting and
 * line endings are the writer's.
 */
module Export {
  import opened Wrappers
  import opened Calendar
  import opened Models
  import opened Ordering
  import opened Views

  /** A Python value as the export reads it off an entry. */
  datatype Value =
    | Text(text: string)
    | Number(n: nat)
    | Day(d: Date)
    | Clock(t: TimeOfDay)
    | Flag(b: bool)
    | Null

  /** The cell `csv.writer` writes for a value: `""` for None, `str(value)` otherwise. */
  function Render(v: Value): (cell: string)
    ensures v.Null? ==> cell == ""
    ensures v.Text? ==> cell == v.text
    ensures v.Number? ==> (forall i :: 0 <= i < |cell| ==> '0' <= cell[i] <= '9') && DecimalValue(cell) == v.n
    ensures v.Day? ==> cell == DateText(v.d) && |cell| == 10 && cell[4] == '-' && cell[7] == '-'
    ensures v.Clock? ==> cell == TimeText(v.t) && |cell| in {8, 15} && cell[2] == ':' && cell[5] == ':'
    ensures v.Flag? ==> cell == if v.b then "True" else "False"
  {
    match v
    case Text(s) => s
    case Number(n) => NatTextValue(n); NatText(n)
    case Day(d) => DateText(d)
    case Clock(t) => TimeText(t)
    case Flag(b) => if b then "True" else "False"
    case Null => ""
  }

  function Optional(n: Option<nat>): Value {
    match n
    case Some(k) => Number(k)
    case None => Null
  }

  function OptionalTime(t: Option<TimeOfDay>): Value {
    match t
    case Some(k) => Clock(k)
    case None => Null
  }

  /** `getattr(entry, name)` for an attribute the model defines. */
  function AttrValue(e: Entry, a: Attr): (v: Value)
    ensures v.Null? ==> a in {OffBlockAttr, OnBlockAttr, FlightTimeAttr, SimulatorTimeAttr}
  {
    match a
    case DateAttr => Day(e.date)
    case DepartureAttr => Text(e.departure)
    case ArrivalAttr => Text(e.arrival)
    case OffBlockAttr => OptionalTime(e.offBlock)
    case OnBlockAttr => OptionalTime(e.onBlock)
    case UavTypeAttr => Text(e.uavType)
    case UavModelAttr => Text(e.uavModel)
    case UavRegAttr => Text(e.uavReg)
    case GcsTypeAttr => Text(e.gcsType)
    case GcsRegAttr => Text(e.gcsReg)
    case UavEasaClassAttr => Text(e.uavEasaClass)
    case MissionTypeAttr => Text(e.missionType)
    case GcsSoftwareAttr => Text(e.gcsSoftware)
    case PilotRoleAttr => Text(e.pilotRole)
    case TakeoffDayAttr => Number(e.takeoffDay)
    case TakeoffNightAttr => Number(e.takeoffNight)
    case LandingDayAttr => Number(e.landingDay)
    case LandingNightAttr => Number(e.landingNight)
    case FlightTimeAttr => Optional(e.flightTime)
    case IsSimulatorAttr => Flag(e.isSimulator)
    case SimulatorTypeAttr => Text(e.simulatorType)
    case SimulatorTimeAttr => Optional(e.simulatorTime)
    case RemarksAttr => Text(e.remarks)
  }

  /**
   * What a row lists in one column: an attribute the model defines, a name it does not define,
   * the role's display label, or the simulator flag.
   */
  datatype Column = Field(attr: Attr) | Undeclared(name: string) | RoleDisplay | SimulatorFlag

  /** The number of columns the export writes. */
  const ColumnCount := 29

  /** The header of column `i`. */
  function HeaderName(i: nat): string
    requires i < ColumnCount
  {
    match i
    case 0 => "Date"
    case 1 => "Departure"
    case 2 => "Arrival"
    case 3 => "Off block"
    case 4 => "On block"
    case 5 => "UAV type"
    case 6 => "UAV registration"
    case 7 => "GCS type"
    case 8 => "GCS registration"
    case 9 => "Engine class (SE/ME)"
    case 10 => "Pilot role"
    case 11 => "GCS connected"
    case 12 => "Engine start"
    case 13 => "Takeoff"
    case 14 => "Landing"
    case 15 => "Engine stop"
    case 16 => "GCS disconnected"
    case 17 => "Takeoffs (day)"
    case 18 => "Takeoffs (night)"
    case 19 => "Landings (day)"
    case 20 => "Landings (night)"
    case 21 => "Flight time (min)"
    case 22 => "Block time (min)"
    case 23 => "Engine time (min)"
    case 24 => "GCS time (min)"
    case 25 => "Simulator?"
    case 26 => "Simulator type"
    case 27 => "Simulator time (min)"
    case _ => "Remarks"
  }

  /** What the view lists in column `i`. */
  function ColumnAt(i: nat): Column
    requires i < ColumnCount
  {
    match i
    case 0 => Field(DateAttr)
    case 1 => Field(DepartureAttr)
    case 2 => Field(ArrivalAttr)
    case 3 => Field(OffBlockAttr)
    case 4 => Field(OnBlockAttr)
    case 5 => Field(UavTypeAttr)
    case 6 => Field(UavRegAttr)
    case 7 => Field(GcsTypeAttr)
    case 8 => Field(GcsRegAttr)
    case 9 => Undeclared("engine_class")
    case 10 => RoleDisplay
    case 11 => Undeclared("connection_time")
    case 12 => Undeclared("engine_start")
    case 13 => Undeclared("takeoff")
    case 14 => Undeclared("landing")
    case 15 => Undeclared("engine_stop")
    case 16 => Undeclared("disconnection_time")
    case 17 => Field(TakeoffDayAttr)
    case 18 => Field(TakeoffNightAttr)
    case 19 => Field(LandingDayAttr)
    case 20 => Field(LandingNightAttr)
    case 21 => Field(FlightTimeAttr)
    case 22 => Undeclared("block_time")
    case 23 => Undeclared("engine_time")
    case 24 => Undeclared("gcs_time")
    case 25 => SimulatorFlag
    case 26 => Field(SimulatorTypeAttr)
    case 27 => Field(SimulatorTimeAttr)
    case _ => Field(RemarksAttr)
  }

  /** The header row. */
  function ExportHeader(): (header: seq<string>)
    ensures |header| == ColumnCount
  {
    seq(ColumnCount, i requires 0 <= i < ColumnCount => HeaderName(i))
  }

  /** The columns the row properties are about carry these headers. */
  lemma HeaderLabels()
    ensures ExportHeader()[0] == "Date" && ExportHeader()[10] == "Pilot role"
    ensures ExportHeader()[21] == "Flight time (min)" && ExportHeader()[25] == "Simulator?"
  {
  }

  /** Ten columns read attributes the model does not have. */
  lemma UndeclaredPositions(i: nat)
    requires i < ColumnCount
    ensures ColumnAt(i).Undeclared? <==> i in {9, 11, 12, 13, 14, 15, 16, 22, 23, 24}
  {
  }

  lemma EngineClassUndeclared()
    ensures !ModelField("engine_class")
  {
  }

  lemma TimestampsUndeclared()
    ensures !ModelField("connection_time") && !ModelField("engine_start") && !ModelField("takeoff")
    ensures !ModelField("landing") && !ModelField("engine_stop") && !ModelField("disconnection_time")
  {
  }

  /** Every column marked undeclared names something the model does not define. */
  lemma UndeclaredColumns(i: nat)
    requires i < ColumnCount && ColumnAt(i).Undeclared?
    ensures !ModelField(ColumnAt(i).name)
  {
    EngineClassUndeclared();
    TimestampsUndeclared();
    DurationsUndeclared();
  }

  // ---- The row as the view builds it ----

  /** One cell as the view computes it: reading an attribute an entry lacks raises AttributeError. */
  function CellAsWritten(e: Entry, c: Column): (r: Result<string, Error>)
    ensures r.Failure? <==> c.Undeclared?
    ensures r.Failure? ==> r.error == AttributeError(c.name)
  {
    match c
    case Field(a) => Success(Render(AttrValue(e, a)))
    case Undeclared(name) => Failure(AttributeError(name))
    case RoleDisplay => Success(PilotRoleDisplay(e.pilotRole))
    case SimulatorFlag => Success(if e.isSimulator then "Yes" else "No")
  }

  /** The columns in the order the view lists them. */
  function ExportColumns(): (cols: seq<Column>)
    ensures |cols| == ColumnCount
    ensures forall i :: 0 <= i < ColumnCount ==> cols[i] == ColumnAt(i)
  {
    seq(ColumnCount, i requires 0 <= i < ColumnCount => ColumnAt(i))
  }

  /**
   * `writer.writerow([...])` for one entry as written, over the listed columns. Python evaluates
   * the list left to right, so the first column that raises decides the error.
   */
  function RowAsWritten(e: Entry, cols: seq<Column>): (r: Result<seq<string>, Error>)
    ensures r.Success? <==> forall i :: 0 <= i < |cols| ==> !cols[i].Undeclared?
    ensures r.Success? ==>
      |r.value| == |cols| && forall i :: 0 <= i < |cols| ==> CellAsWritten(e, cols[i]) == Success(r.value[i])
    ensures r.Failure? ==>
      exists k :: 0 <= k < |cols| && cols[k].Undeclared? && r.error == AttributeError(cols[k].name) &&
        (forall j :: 0 <= j < k ==> !cols[j].Undeclared?)
  {
    if cols == [] then Success([])
    else
      assert forall k :: 1 <= k < |cols| ==> cols[1..][k - 1] == cols[k];
      match CellAsWritten(e, cols[0])
      case Failure(err) => Failure(err)
      case Success(cell) =>
        match RowAsWritten(e, cols[1..])
        case Failure(err) => Failure(err)
        case Success(cells) => Success([cell] + cells)
  }

  /** Every entry makes the view raise AttributeError at the engine-class column. */
  lemma RowAsWrittenFails(e: Entry)
    ensures RowAsWritten(e, ExportColumns()) == Failure(AttributeError("engine_class"))
  {
    var cols := ExportColumns();
    var r := RowAsWritten(e, cols);
    assert cols[9] == Undeclared("engine_class");
    assert r.Failure?;
    var k :| 0 <= k < |cols| && cols[k].Undeclared? && r.error == AttributeError(cols[k].name) &&
      forall j :: 0 <= j < k ==> !cols[j].Undeclared?;
    assert k <= 9;
    UndeclaredPositions(k);
    assert k == 9;
  }

  /**
   * `flight_export_csv` as written, for the columns its row lists: the header, then one row per
   * entry in ascending date order, stopping at the first row that raises.
   */
  method ExportCsvAsWritten(all: seq<Entry>, cols: seq<Column>) returns (r: Result<seq<seq<string>>, Error>)
    ensures r.Success? <==> RowsWritable(SortByDate(all, Ascending), cols)
    ensures r.Failure? ==> exists i :: 0 <= i < |all| && RowAsWritten(SortByDate(all, Ascending)[i], cols) == Failure(r.error)
    ensures r.Success? ==>
      |r.value| == |all| + 1 && r.value[0] == ExportHeader() &&
      forall i :: 1 <= i < |r.value| ==> Success(r.value[i]) == RowAsWritten(SortByDate(all, Ascending)[i - 1], cols)
  {
    var flights := SortByDate(all, Ascending);
    assert |flights| == |all|;
    r := WriteRowsAsWritten(flights, cols);
  }

  /** Every entry's row can be written: no row raises. */
  predicate RowsWritable(flights: seq<Entry>, cols: seq<Column>) {
    forall i :: 0 <= i < |flights| ==> RowAsWritten(flights[i], cols).Success?
  }

  /** The writing loop as written, over entries already in the order the query returned them. */
  method WriteRowsAsWritten(flights: seq<Entry>, cols: seq<Column>) returns (r: Result<seq<seq<string>>, Error>)
    ensures r.Success? <==> RowsWritable(flights, cols)
    ensures r.Failure? ==> exists i :: 0 <= i < |flights| && RowAsWritten(flights[i], cols) == Failure(r.error)
    ensures r.Success? ==>
      |r.value| == |flights| + 1 && r.value[0] == ExportHeader() &&
      forall i :: 1 <= i < |r.value| ==> Success(r.value[i]) == RowAsWritten(flights[i - 1], cols)
  {
    var header := ExportHeader();
    var rows := [header];
    for i := 0 to |flights|
      invariant |rows| == i + 1 && rows[0] == header
      invariant forall j :: 0 <= j < i ==> RowAsWritten(flights[j], cols).Success?
      invariant forall j :: 1 <= j < |rows| ==> Success(rows[j]) == RowAsWritten(flights[j - 1], cols)
    {
      var row := RowAsWritten(flights[i], cols);
      if row.Failure? {
        RowFailureWitness(flights, cols, i, row.error);
        return Failure(row.error);
      }
      rows := rows + [row.value];
    }
    return Success(rows);
  }

  /** One failing row is enough to make the whole export fail, with that row's error. */
  lemma RowFailureWitness(flights: seq<Entry>, cols: seq<Column>, i: nat, err: Error)
    requires i < |flights| && RowAsWritten(flights[i], cols) == Failure(err)
    ensures !forall j :: 0 <= j < |flights| ==> RowAsWritten(flights[j], cols).Success?
    ensures exists j :: 0 <= j < |flights| && RowAsWritten(flights[j], cols) == Failure(err)
  {
  }

  /** So the export as written raises on `engine_class` at the first entry, and succeeds only on an empty logbook. */
  lemma ExportAsWrittenOutcome(all: seq<Entry>)
    ensures forall i :: 0 <= i < |all| ==> RowAsWritten(SortByDate(all, Ascending)[i], ExportColumns()) == Failure(AttributeError("engine_class"))
  {
    var flights := SortByDate(all, Ascending);
    forall i | 0 <= i < |all|
      ensures RowAsWritten(flights[i], ExportColumns()) == Failure(AttributeError("engine_class"))
    {
      RowAsWrittenFails(flights[i]);
    }
  }

  // ---- The row with the missing attributes left empty ----

  /** One cell, written empty where the view reads an attribute an entry lacks. */
  function Cell(e: Entry, c: Column): (cell: string)
    ensures !c.Undeclared? ==> CellAsWritten(e, c) == Success(cell)
    ensures c.Undeclared? ==> cell == ""
  {
    match CellAsWritten(e, c)
    case Success(text) => text
    case Failure(_) => ""
  }

  /** One export row: a cell for every column. */
  function ExportRow(e: Entry): (row: seq<string>)
    ensures |row| == ColumnCount
  {
    seq(ColumnCount, i requires 0 <= i < ColumnCount => Cell(e, ColumnAt(i)))
  }

  lemma ExportRowCell(e: Entry, i: nat)
    requires i < ColumnCount
    ensures ExportRow(e)[i] == Cell(e, ColumnAt(i))
  {
  }

  /** The first cell of an export row is the flight date, written yyyy-mm-dd. */
  lemma ExportRowDate(e: Entry)
    ensures ExportRow(e)[0] == DateText(e.date)
  {
    ExportRowCell(e, 0);
    assert ColumnAt(0) == Field(DateAttr);
  }

  /** The off-block and on-block cells are `str(time)` of the block times, empty when a time is missing. */
  lemma ExportRowBlockTimes(e: Entry)
    ensures ExportRow(e)[3] == Render(OptionalTime(e.offBlock))
    ensures ExportRow(e)[4] == Render(OptionalTime(e.onBlock))
  {
    ExportRowCell(e, 3);
    assert ColumnAt(3) == Field(OffBlockAttr);
    FieldCell(e, OffBlockAttr);
    ExportRowCell(e, 4);
    assert ColumnAt(4) == Field(OnBlockAttr);
    FieldCell(e, OnBlockAttr);
  }

  lemma FieldCell(e: Entry, a: Attr)
    ensures Cell(e, Field(a)) == Render(AttrValue(e, a))
  {
  }

  /** The role cell shows the role's label, not its stored code. */
  lemma ExportRowRole(e: Entry)
    ensures ExportRow(e)[10] == PilotRoleDisplay(e.pilotRole)
  {
    ExportRowCell(e, 10);
    assert ColumnAt(10) == RoleDisplay;
  }

  /** The flight-time cell is the stored flight time, empty when there is none. */
  lemma ExportRowFlightTime(e: Entry)
    ensures ExportRow(e)[21] == Render(Optional(e.flightTime))
  {
    ExportRowCell(e, 21);
    assert ColumnAt(21) == Field(FlightTimeAttr);
    assert AttrValue(e, FlightTimeAttr) == Optional(e.flightTime);
    assert CellAsWritten(e, Field(FlightTimeAttr)) == Success(Render(Optional(e.flightTime)));
  }

  /** The simulator cell is "Yes" exactly for simulator flights and "No" exactly for the others. */
  lemma ExportRowSimulator(e: Entry)
    ensures ExportRow(e)[25] == "Yes" <==> e.isSimulator
    ensures ExportRow(e)[25] == "No" <==> !e.isSimulator
  {
    ExportRowCell(e, 25);
    assert ColumnAt(25) == SimulatorFlag;
  }

  /** Where a column's cell as written exists, the export row has that cell. */
  lemma ExportRowAgrees(e: Entry, i: nat)
    requires i < ColumnCount && !ColumnAt(i).Undeclared?
    ensures CellAsWritten(e, ColumnAt(i)) == Success(ExportRow(e)[i])
  {
    ExportRowCell(e, i);
  }

  /** The whole export: the header, then one row per entry in ascending date order. */
  method ExportCsv(all: seq<Entry>) returns (rows: seq<seq<string>>)
    ensures |rows| == |all| + 1
    ensures rows[0] == ExportHeader()
    ensures forall i :: 0 <= i < |rows| ==> |rows[i]| == ColumnCount
    ensures forall i :: 1 <= i < |rows| ==> rows[i] == ExportRow(SortByDate(all, Ascending)[i - 1])
  {
    rows := WriteRows(SortByDate(all, Ascending));
  }

  /** The writing loop, over entries already in the order the query returned them. */
  method WriteRows(flights: seq<Entry>) returns (rows: seq<seq<string>>)
    ensures |rows| == |flights| + 1
    ensures rows[0] == ExportHeader()
    ensures forall i :: 0 <= i < |rows| ==> |rows[i]| == ColumnCount
    ensures forall i :: 1 <= i < |rows| ==> rows[i] == ExportRow(flights[i - 1])
  {
    rows := [ExportHeader()];
    for i := 0 to |flights|
      invariant |rows| == i + 1
      invariant rows[0] == ExportHeader()
      invariant forall j :: 0 <= j < |rows| ==> |rows[j]| == ColumnCount
      invariant forall j :: 1 <= j < |rows| ==> rows[j] == ExportRow(flights[j - 1])
    {
      rows := rows + [ExportRow(flights[i])];
    }
  }
}
