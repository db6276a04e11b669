/**
 * A UAS flight-log entry: its stored fields, the pilot-role choices, and the flight time
 * that every save derives from the departure (off-block) and arrival (on-block) times.
 */
module Models {
  import opened Wrappers
  import opened Calendar

  // ---- Pilot role: the seven choices and their display labels ----

  datatype PilotRole = PilotInCommand | Copilot | Observer | Student | Instructor | Examiner | Other

  /** The code stored in the `pilot_role` column. */
  function RoleCode(r: PilotRole): string {
    match r
    case PilotInCommand => "PIC"
    case Copilot => "COP"
    case Observer => "OBS"
    case Student => "STU"
    case Instructor => "INS"
    case Examiner => "EXM"
    case Other => "OTH"
  }

  /** The label shown for a role. */
  function RoleLabel(r: PilotRole): string {
    match r
    case PilotInCommand => "Pilot in Command"
    case Copilot => "Co-pilot"
    case Observer => "Observer / VO"
    case Student => "Student / Trainee"
    case Instructor => "Instructor"
    case Examiner => "Examiner"
    case Other => "Other"
  }

  /** The roles in declaration order. */
  const AllRoles: seq<PilotRole> :=
    [PilotInCommand, Copilot, Observer, Student, Instructor, Examiner, Other]

  /** `PilotRole.choices`: (code, label) pairs in declaration order. */
  function RoleChoices(): (choices: seq<(string, string)>)
    ensures |choices| == 7
    ensures forall i :: 0 <= i < 7 ==> choices[i] == (RoleCode(AllRoles[i]), RoleLabel(AllRoles[i]))
  {
    seq(7, i requires 0 <= i < 7 => (RoleCode(AllRoles[i]), RoleLabel(AllRoles[i])))
  }

  /** Each role has its own code, and every role appears in the choices. */
  lemma RoleCodesDistinct(p: PilotRole, q: PilotRole)
    ensures RoleCode(p) == RoleCode(q) <==> p == q
    ensures p in AllRoles
  {
  }

  /** The role whose code is `code`, if any. */
  function RoleOfCode(code: string): (r: Option<PilotRole>)
    ensures r.Some? ==> RoleCode(r.value) == code
    ensures r.None? ==> forall p :: RoleCode(p) != code
  {
    if code == "PIC" then Some(PilotInCommand)
    else if code == "COP" then Some(Copilot)
    else if code == "OBS" then Some(Observer)
    else if code == "STU" then Some(Student)
    else if code == "INS" then Some(Instructor)
    else if code == "EXM" then Some(Examiner)
    else if code == "OTH" then Some(Other)
    else None
  }

  /**
   * `get_pilot_role_display()`: the label of the stored code, or the stored value itself
   * when it is not one of the choices (the column does not enforce them).
   */
  function PilotRoleDisplay(code: string): (shown: string)
    ensures forall p :: RoleCode(p) == code ==> shown == RoleLabel(p)
    ensures (forall p :: RoleCode(p) != code) ==> shown == code
  {
    match RoleOfCode(code)
    case Some(p) => RoleLabel(p)
    case None => code
  }

  // ---- The flight time derived from the block times ----

  /**
   * `_combine`: the point in time at which time of day `t` falls on `date`, in microseconds,
   * with the day counted as `toordinal()` does; absent when the time or the date is missing.
   */
  function Combine(date: Option<Date>, t: Option<TimeOfDay>): (r: Option<int>)
    ensures r.Some? <==> date.Some? && t.Some?
    ensures r.Some? ==> r.value / MicrosPerDay == Ordinal(date.value) && r.value % MicrosPerDay == t.value
  {
    if t.None? || date.None? then None
    else Some(Ordinal(date.value) * MicrosPerDay + t.value)
  }

  /**
   * The flight time that `save` derives: whole minutes from departure to arrival when both
   * are set and arrival is strictly later than departure on the entry's date; otherwise none.
   */
  function FlightTime(date: Option<Date>, offBlock: Option<TimeOfDay>, onBlock: Option<TimeOfDay>): (r: Option<nat>)
    ensures r.None? <==> date.None? || offBlock.None? || onBlock.None? || onBlock.value <= offBlock.value
    ensures r.Some? ==> r.value == (onBlock.value - offBlock.value) / MicrosPerMinute
    ensures r.Some? ==> r.value <= 1439
  {
    var start := Combine(date, offBlock);
    var end := Combine(date, onBlock);
    if start.Some? && end.Some? then
      SameDay(date.value, offBlock.value, onBlock.value);
      if end.value > start.value then
        WithinDay(end.value - start.value);
        Some((end.value - start.value) / MicrosPerMinute)
      else
        None
    else
      None
  }

  /** Two times combined with the same date lie as far apart as the times themselves. */
  lemma SameDay(date: Date, a: TimeOfDay, b: TimeOfDay)
    ensures Combine(Some(date), Some(b)).value - Combine(Some(date), Some(a)).value == b - a
  {
  }

  lemma WithinDay(d: int)
    requires 0 < d < MicrosPerDay
    ensures 0 <= d / MicrosPerMinute <= 1439
  {
  }

  /** Equal block times give no flight time, not zero. */
  lemma EqualTimesGiveNone(date: Option<Date>, t: TimeOfDay)
    ensures FlightTime(date, Some(t), Some(t)) == None
  {
  }

  /** An arrival earlier than departure (a flight across midnight) gives no flight time. */
  lemma EarlierArrivalGivesNone(date: Option<Date>, offBlock: TimeOfDay, onBlock: TimeOfDay)
    requires onBlock < offBlock
    ensures FlightTime(date, Some(offBlock), Some(onBlock)) == None
  {
  }

  /** A flight shorter than a minute is logged as zero minutes. */
  lemma ShortFlightGivesZero(date: Date, offBlock: TimeOfDay, onBlock: TimeOfDay)
    requires offBlock < onBlock < offBlock + MicrosPerMinute
    ensures FlightTime(Some(date), Some(offBlock), Some(onBlock)) == Some(0)
  {
  }

  /** 09:00 to 09:00 gives none, 10:00 to 09:59 gives none, 08:00 to 08:00:59 gives 0, 08:00 to 08:01 gives 1. */
  lemma FlightTimeExamples(date: Date)
    ensures FlightTime(Some(date), Some(9 * MicrosPerHour), Some(9 * MicrosPerHour)) == None
    ensures FlightTime(Some(date), Some(10 * MicrosPerHour), Some(9 * MicrosPerHour + 59 * MicrosPerMinute)) == None
    ensures FlightTime(Some(date), Some(8 * MicrosPerHour), Some(8 * MicrosPerHour + 59 * MicrosPerSecond)) == Some(0)
    ensures FlightTime(Some(date), Some(8 * MicrosPerHour), Some(8 * MicrosPerHour + MicrosPerMinute)) == Some(1)
  {
  }

  // ---- A stored entry ----

  /** A flight-log row as the database holds it (owner and creation time are not modelled). */
  datatype Entry = Entry(
    date: Date,
    departure: string,
    arrival: string,
    offBlock: Option<TimeOfDay>,
    onBlock: Option<TimeOfDay>,
    uavType: string,
    uavModel: string,
    uavReg: string,
    gcsType: string,
    gcsReg: string,
    uavEasaClass: string,
    missionType: string,
    gcsSoftware: string,
    pilotRole: string,
    takeoffDay: nat,
    takeoffNight: nat,
    landingDay: nat,
    landingNight: nat,
    flightTime: Option<nat>,
    isSimulator: bool,
    simulatorType: string,
    simulatorTime: Option<nat>,
    remarks: string)
  {
    /** The stored flight time is the one its own block times give, as every save leaves it. */
    predicate Derived() {
      flightTime == FlightTime(Some(date), offBlock, onBlock)
    }
  }

  /** The attributes of a `FlightLogEntry` that `Entry` models, in declaration order. */
  datatype Attr =
    | DateAttr | DepartureAttr | ArrivalAttr | OffBlockAttr | OnBlockAttr | UavTypeAttr
    | UavModelAttr | UavRegAttr | GcsTypeAttr | GcsRegAttr | UavEasaClassAttr | MissionTypeAttr
    | GcsSoftwareAttr | PilotRoleAttr | TakeoffDayAttr | TakeoffNightAttr | LandingDayAttr
    | LandingNightAttr | FlightTimeAttr | IsSimulatorAttr | SimulatorTypeAttr | SimulatorTimeAttr
    | RemarksAttr

  /** The Python name of an attribute. */
  function AttrName(a: Attr): string {
    match a
    case DateAttr => "date"
    case DepartureAttr => "departure"
    case ArrivalAttr => "arrival"
    case OffBlockAttr => "off_block"
    case OnBlockAttr => "on_block"
    case UavTypeAttr => "uav_type"
    case UavModelAttr => "uav_model"
    case UavRegAttr => "uav_reg"
    case GcsTypeAttr => "gcs_type"
    case GcsRegAttr => "gcs_reg"
    case UavEasaClassAttr => "uav_easa_class"
    case MissionTypeAttr => "mission_type"
    case GcsSoftwareAttr => "gcs_software"
    case PilotRoleAttr => "pilot_role"
    case TakeoffDayAttr => "takeoff_day"
    case TakeoffNightAttr => "takeoff_night"
    case LandingDayAttr => "landing_day"
    case LandingNightAttr => "landing_night"
    case FlightTimeAttr => "flight_time"
    case IsSimulatorAttr => "is_simulator"
    case SimulatorTypeAttr => "simulator_type"
    case SimulatorTimeAttr => "simulator_time"
    case RemarksAttr => "remarks"
  }

  /** A name Django resolves on an entry: one of the attributes above, the key and its `pk` alias,
      the owner and its `user_id` column, or the creation time. */
  predicate ModelField(name: string) {
    (exists a :: AttrName(a) == name) || name in ["id", "pk", "user", "user_id", "created_at"]
  }

  /** A saved entry's flight time is at most a day's worth of minutes. */
  lemma DerivedFlightTimeBound(e: Entry)
    requires e.Derived()
    ensures e.flightTime.GetOr(0) <= 1439
  {
  }

  // ---- The model instance that forms fill in and `save` persists ----

  class FlightLogEntry {
    var date: Option<Date>
    var departure: string
    var arrival: string
    var offBlock: Option<TimeOfDay>
    var onBlock: Option<TimeOfDay>
    var uavType: string
    var uavModel: string
    var uavReg: string
    var gcsType: string
    var gcsReg: string
    var uavEasaClass: string
    var missionType: string
    var gcsSoftware: string
    var pilotRole: string
    var takeoffDay: nat
    var takeoffNight: nat
    var landingDay: nat
    var landingNight: nat
    var flightTime: Option<nat>
    var isSimulator: bool
    var simulatorType: string
    var simulatorTime: Option<nat>
    var remarks: string

    /** A new, unsaved instance carries the field defaults. */
    constructor ()
      ensures date == None && offBlock == None && onBlock == None
      ensures departure == "" && arrival == "" && uavType == "" && uavModel == "" && uavReg == ""
      ensures gcsType == "" && gcsReg == "" && uavEasaClass == "" && missionType == "" && gcsSoftware == ""
      ensures pilotRole == RoleCode(PilotInCommand)
      ensures takeoffDay == 0 && takeoffNight == 0 && landingDay == 0 && landingNight == 0
      ensures flightTime == None
      ensures !isSimulator && simulatorType == "" && simulatorTime == None && remarks == ""
    {
      date, offBlock, onBlock := None, None, None;
      departure, arrival, uavType, uavModel, uavReg := "", "", "", "", "";
      gcsType, gcsReg, uavEasaClass, missionType, gcsSoftware := "", "", "", "", "";
      pilotRole := "PIC";
      takeoffDay, takeoffNight, landingDay, landingNight := 0, 0, 0, 0;
      flightTime := None;
      isSimulator, simulatorType, simulatorTime, remarks := false, "", None, "";
    }

    /** The flight time field agrees with the block times and the date. */
    predicate Derived()
      reads this
    {
      flightTime == FlightTime(date, offBlock, onBlock)
    }

    /** The row the database holds for this instance once it has a date. */
    function Row(): (e: Entry)
      reads this
      requires date.Some?
      ensures e.date == date.value && e.offBlock == offBlock && e.onBlock == onBlock
      ensures e.flightTime == flightTime
      ensures e.uavType == uavType && e.pilotRole == pilotRole && e.isSimulator == isSimulator
      ensures Derived() ==> e.Derived()
    {
      Entry(date.value, departure, arrival, offBlock, onBlock, uavType, uavModel, uavReg, gcsType, gcsReg,
            uavEasaClass, missionType, gcsSoftware, pilotRole, takeoffDay, takeoffNight, landingDay,
            landingNight, flightTime, isSimulator, simulatorType, simulatorTime, remarks)
    }

    /**
     * `save`: recompute the flight time from the date and the block times, whatever it was
     * before, and touch no other field; writing the row is left to the database.
     */
    method Save()
      modifies this`flightTime
      ensures Derived()
      ensures date.Some? ==> Row().Derived()
    {
      var start := Combine(date, offBlock);
      var end := Combine(date, onBlock);
      if start.Some? && end.Some? && end.value > start.value {
        flightTime := Some((end.value - start.value) / MicrosPerMinute);
      } else {
        flightTime := None;
      }
    }
  }

  /** Saving an entry that was already saved leaves it as it was. */
  method Resave(entry: FlightLogEntry)
    requires entry.Derived()
    modifies entry`flightTime
    ensures entry.flightTime == old(entry.flightTime)
  {
    entry.Save();
  }
}
