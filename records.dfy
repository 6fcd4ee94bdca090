/**
 * One row of the per-section report: the fields filled in for a phase of a
 * machine's setup, whether the phase was read from the embedded JSON or from
 * an XML element. Times are integer milliseconds since the epoch, durations
 * and tick counts integer milliseconds, and the `_s` fields the same
 * quantities in seconds.
 */
module Records {
  import opened Options
  import opened Xml

  /** A raw field as it was found: a JSON scalar, or the text read from an element. */
  datatype Value = Null | Str(s: string) | Num(n: int) | Bool(b: bool) | Composite

  datatype Record = Record(
    machine: string,
    section: string,
    startPst: Option<int>,
    endPst: Option<int>,
    durationS: Option<real>,
    durationMs: Option<int>,
    tickMs: Option<int>,
    tickS: Option<real>,
    startRaw: Value,
    endRaw: Value)

  /** Pacific standard time is a fixed eight hours behind UTC. */
  const PstOffsetMs: int := 8 * 60 * 60 * 1000

  /** Each seconds field is present exactly when its milliseconds field is, and agrees with it. */
  predicate WellFormed(r: Record)
  {
    && (r.durationS.Some? <==> r.durationMs.Some?)
    && (r.durationMs.Some? ==> r.durationS.value == r.durationMs.value as real / 1000.0)
    && (r.tickS.Some? <==> r.tickMs.Some?)
    && (r.tickMs.Some? ==> r.tickS.value == r.tickMs.value as real / 1000.0)
  }

  /**
   * `parse_iso_utc`: an empty or missing value gives nothing, and so does any
   * value that is not a string (the call on it fails and the failure is
   * swallowed); a string goes to the timestamp parser, which may reject it.
   */
  function ParseIso(v: Value, parseTime: string -> Option<int>): (t: Option<int>)
    ensures t.Some? ==> v.Str? && v.s != [] && parseTime(v.s) == t
    ensures v.Str? && v.s != [] ==> t == parseTime(v.s)
  {
    if v.Str? && v.s != [] then parseTime(v.s) else None
  }

  /**
   * `float(tick_raw)`: a string goes to the number parser, a number is taken
   * as is, a boolean counts as 1 or 0, and anything else is rejected.
   */
  function ParseTick(v: Value, parseTick: string -> Option<int>): (t: Option<int>)
    ensures v.Str? ==> t == parseTick(v.s)
    ensures v.Num? ==> t == Some(v.n)
    ensures v.Bool? ==> t == Some(if v.b then 1 else 0)
    ensures v.Null? || v.Composite? ==> t.None?
  {
    match v
    case Str(s) => parseTick(s)
    case Num(n) => Some(n)
    case Bool(b) => Some(if b then 1 else 0)
    case Null => None
    case Composite => None
  }

  /** `to_pst_str`, keeping the instant rather than its text. */
  function ToPst(t: Option<int>): (p: Option<int>)
    ensures p.Some? <==> t.Some?
    ensures p.Some? ==> p.value + PstOffsetMs == t.value
  {
    match t
    case None => None
    case Some(ms) => Some(ms - PstOffsetMs)
  }

  /**
   * The record both extraction paths build from the three raw fields: the
   * duration only when both timestamps parse, the tick fields from the tick
   * value alone.
   */
  function BuildRecord(machine: string, section: string, startRaw: Value, endRaw: Value, tickRaw: Value,
                       parseTime: string -> Option<int>, parseTick: string -> Option<int>): (r: Record)
    ensures WellFormed(r)
    ensures r.machine == machine && r.section == section && r.startRaw == startRaw && r.endRaw == endRaw
    ensures r.durationMs.Some? <==> ParseIso(startRaw, parseTime).Some? && ParseIso(endRaw, parseTime).Some?
    ensures r.durationMs.Some? ==>
              r.durationMs.value == ParseIso(endRaw, parseTime).value - ParseIso(startRaw, parseTime).value
    ensures r.tickMs == ParseTick(tickRaw, parseTick)
    ensures r.startPst.Some? == ParseIso(startRaw, parseTime).Some?
    ensures r.endPst.Some? == ParseIso(endRaw, parseTime).Some?
    ensures r.startPst.Some? ==> r.startPst.value + PstOffsetMs == ParseIso(startRaw, parseTime).value
    ensures r.endPst.Some? ==> r.endPst.value + PstOffsetMs == ParseIso(endRaw, parseTime).value
  {
    var start := ParseIso(startRaw, parseTime);
    var end := ParseIso(endRaw, parseTime);
    var durationMs := if start.Some? && end.Some? then Some(end.value - start.value) else None;
    var tickMs := ParseTick(tickRaw, parseTick);
    Record(machine, section, ToPst(start), ToPst(end),
           Seconds(durationMs), durationMs, tickMs, Seconds(tickMs),
           startRaw, endRaw)
  }

  /** Milliseconds to seconds, keeping absence. */
  function Seconds(ms: Option<int>): (s: Option<real>)
    ensures s.Some? <==> ms.Some?
    ensures s.Some? ==> s.value * 1000.0 == ms.value as real
  {
    match ms
    case None => None
    case Some(v) => Some(v as real / 1000.0)
  }

  /** A field read from an element, as the record keeps it: the stripped text, or nothing. */
  function Raw(field: Option<string>): (v: Value)
    ensures v.Null? <==> field.None?
    ensures v.Str? ==> v.s == field.value
  {
    match field
    case None => Null
    case Some(s) => Str(s)
  }

  /**
   * `extract_section_record`: read `StartTime`, `EndTime` and `TickCount` from
   * the element's children or attributes, then build the record.
   */
  function ExtractSectionRecord(machine: string, section: string, elem: Element,
                                parseTime: string -> Option<int>, parseTick: string -> Option<int>): (r: Record)
    ensures WellFormed(r) && r.machine == machine && r.section == section
    ensures r.startRaw == Raw(GetTextOrAttr(elem, "StartTime")) && r.endRaw == Raw(GetTextOrAttr(elem, "EndTime"))
    ensures r.durationMs.Some? <==>
              && GetTextOrAttr(elem, "StartTime").Some? && parseTime(GetTextOrAttr(elem, "StartTime").value).Some?
              && GetTextOrAttr(elem, "EndTime").Some? && parseTime(GetTextOrAttr(elem, "EndTime").value).Some?
    ensures r.durationMs.Some? ==>
              r.durationMs.value == parseTime(GetTextOrAttr(elem, "EndTime").value).value
                                    - parseTime(GetTextOrAttr(elem, "StartTime").value).value
    ensures r.tickMs == if GetTextOrAttr(elem, "TickCount").Some? then parseTick(GetTextOrAttr(elem, "TickCount").value)
                        else None
  {
    BuildRecord(machine, section, Raw(GetTextOrAttr(elem, "StartTime")), Raw(GetTextOrAttr(elem, "EndTime")),
                Raw(GetTextOrAttr(elem, "TickCount")), parseTime, parseTick)
  }

  /** The record standing for a companion-log timing: only the duration is filled in. */
  function PaSetupRecord(machine: string, timingMs: int): (r: Record)
    ensures WellFormed(r) && r.machine == machine && r.section == "PaSetup"
    ensures r.durationMs == Some(timingMs) && r.tickMs.None?
    ensures r.startPst.None? && r.endPst.None? && r.startRaw.Null? && r.endRaw.Null?
  {
    Record(machine, "PaSetup", None, None, Some(timingMs as real / 1000.0), Some(timingMs), None, None, Null, Null)
  }

  /** The record left when a file gave nothing at all. */
  function NoDataRecord(machine: string): (r: Record)
    ensures WellFormed(r) && r.machine == machine && r.section == "NO_DATA"
    ensures r.durationMs.None? && r.tickMs.None? && r.endRaw == Str("No telemetry data found")
  {
    Record(machine, "NO_DATA", None, None, None, None, None, None, Null, Str("No telemetry data found"))
  }

  /** The record left when reading a file failed, carrying the failure's message. */
  function ErrorRecord(machine: string, message: string): (r: Record)
    ensures WellFormed(r) && r.machine == machine && r.section == "ERROR"
    ensures r.durationMs.None? && r.tickMs.None? && r.endRaw == Str("Failed to parse: " + message)
  {
    Record(machine, "ERROR", None, None, None, None, None, None, Null, Str("Failed to parse: " + message))
  }
}
