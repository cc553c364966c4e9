/** The legacy Python 2 aggregator: the same fold over sighting rows, kept in
    a table of string cells whose row 0 is a header. Every cell write looks
    the aircraft up again by searching the whole table for a cell equal to
    its ICAO, and the tracking link is a variable carried from one row to
    the next. */
module Legacy {
  import opened Wrappers
  import opened PyStr
  import Planefence

  /** The `--link` option, validated and then never used. */
  datatype LinkService = Adsbx | Fa

  datatype LegacyArgError = MissingLogfile | BadLinkService | BadDistUnit | BadStation

  /** Run-wide parameters. `parseFloat` is `float(...)` (`None` where it
      raises); `haversineKm` is the great-circle distance in kilometres from
      the station to a point given in degrees (`None` where the math raises);
      `fmt1` is `"{:.1f}".format`; `latText`/`lonText` are `str(lat)` and
      `str(lon)` of the station. */
  datatype LegacyConfig = LegacyConfig(
    maxDist: real,
    maxAlt: real,
    unit: Planefence.DistUnit,
    calcDist: bool,
    service: Planefence.TrackService,
    latText: string,
    lonText: string,
    parseFloat: string -> Option<real>,
    haversineKm: (real, real) -> Option<real>,
    fmt1: real -> string)

  function ParseLinkService(s: string): (r: Option<LinkService>)
    ensures r.Some? <==> s in {"adsbx", "fa"}
  {
    if s == "adsbx" then Some(Adsbx) else if s == "fa" then Some(Fa) else None
  }

  /** The checks before the log is opened, in the script's order: log file,
      link service, distance unit, then the station coordinates, which must
      parse as floats. */
  function CheckArgs(logfile: string, linkservice: string, distunit: string,
                     latText: string, lonText: string, maxDist: real, maxAlt: real,
                     calcDist: bool, service: Planefence.TrackService,
                     parseFloat: string -> Option<real>, haversineKm: (real, real) -> Option<real>,
                     fmt1: real -> string): (r: Result<LegacyConfig, LegacyArgError>)
    ensures r.Ok? <==> logfile != "" && linkservice in {"adsbx", "fa"} && distunit in {"km", "nm", "mi", "m"}
                       && parseFloat(latText).Some? && parseFloat(lonText).Some?
    ensures logfile == "" ==> r == Err(MissingLogfile)
    ensures logfile != "" && linkservice !in {"adsbx", "fa"} ==> r == Err(BadLinkService)
    ensures logfile != "" && linkservice in {"adsbx", "fa"} && distunit !in {"km", "nm", "mi", "m"}
            ==> r == Err(BadDistUnit)
    ensures (logfile != "" && linkservice in {"adsbx", "fa"} && distunit in {"km", "nm", "mi", "m"}
             && (parseFloat(latText).None? || parseFloat(lonText).None?)) ==> r == Err(BadStation)
    ensures r.Ok? ==> r.value.unit == Planefence.ParseDistUnit(distunit).value
                      && r.value.latText == latText && r.value.lonText == lonText
  {
    if logfile == "" then Err(MissingLogfile)
    else if ParseLinkService(linkservice).None? then Err(BadLinkService)
    else if Planefence.ParseDistUnit(distunit).None? then Err(BadDistUnit)
    else if parseFloat(latText).None? || parseFloat(lonText).None? then Err(BadStation)
    else Ok(LegacyConfig(maxDist, maxAlt, Planefence.ParseDistUnit(distunit).value, calcDist, service,
                         latText, lonText, parseFloat, haversineKm, fmt1))
  }

  /** Kilometres per unit: `distconv`. */
  function DistConv(u: Planefence.DistUnit): (r: real)
    ensures r > 0.0
    ensures u == Planefence.Km ==> r == 1.0
    ensures u == Planefence.Nm ==> r == 1.852
    ensures u == Planefence.Mi ==> r == 1.60934
    ensures u == Planefence.M ==> r == 0.001
  {
    match u
    case Km => 1.0
    case Nm => 1.852
    case Mi => 1.60934
    case M => 0.001
  }

  const Missing: real := Planefence.Sentinel as real

  /** `rowdist`: the reported field 7, or the computed distance in the
      configured unit; 999999 where a field is absent or anything raises. */
  function RowDist(cfg: LegacyConfig, row: seq<string>): (r: real)
    ensures !cfg.calcDist ==> r == (if |row| > 7 then cfg.parseFloat(row[7]).GetOr(Missing) else Missing)
    ensures cfg.calcDist && r != Missing ==>
              exists km :: r == km / DistConv(cfg.unit) && |row| > 3
                           && cfg.parseFloat(row[2]).Some? && cfg.parseFloat(row[3]).Some?
                           && cfg.haversineKm(cfg.parseFloat(row[2]).value, cfg.parseFloat(row[3]).value) == Some(km)
  {
    if !cfg.calcDist then
      if |row| > 7 then cfg.parseFloat(row[7]).GetOr(Missing) else Missing
    else if |row| > 3 && cfg.parseFloat(row[2]).Some? && cfg.parseFloat(row[3]).Some? then
      match cfg.haversineKm(cfg.parseFloat(row[2]).value, cfg.parseFloat(row[3]).value)
      case Some(km) => km / DistConv(cfg.unit)
      case None => Missing
    else Missing
  }

  /** `rowalt`: field 1 as given, with no altitude correction. */
  function RowAlt(cfg: LegacyConfig, row: seq<string>): (r: real)
    ensures |row| > 1 && cfg.parseFloat(row[1]).Some? ==> r == cfg.parseFloat(row[1]).value
    ensures !(|row| > 1 && cfg.parseFloat(row[1]).Some?) ==> r == Missing
  {
    if |row| > 1 then cfg.parseFloat(row[1]).GetOr(Missing) else Missing
  }

  const Header: seq<string> := ["ICAO", "Flight Number", "In-range Date/Time", "Out-range Date/Time",
                                "Lowest Altitude", "Minimal Distance", "Flight Link"]

  /** Column numbers of the table. */
  const CallsignCol: nat := 1
  const LastHeardCol: nat := 3
  const AltCol: nat := 4
  const DistCol: nat := 5
  const LinkCol: nat := 6

  type Table = seq<seq<string>>

  /** Every row has the seven columns of the header. */
  predicate Wide(t: Table) {
    forall i :: 0 <= i < |t| ==> |t[i]| == 7
  }

  /** The exceptions that end a legacy run; each carries the row index. */
  datatype LegacyError =
    | EmptyRow(row: nat)          // `row[0]` of a blank line
    | ShortRow(row: nat)          // a field indexed outside the `try` blocks is absent
    | LostRecord(row: nat)        // the lookup before a cell write finds no cell equal to the ICAO
    | BadStoredNumber(row: nat)   // a stored altitude or distance cell does not parse

  /** `np.where(records == icao)[0][0]`: the first row holding a cell equal to
      `icao`, in any column. */
  function Locate(t: Table, icao: string): (r: Option<nat>)
    ensures r.Some? ==> r.value < |t| && icao in t[r.value]
                        && forall j :: 0 <= j < r.value ==> icao !in t[j]
    ensures r.None? <==> forall j :: 0 <= j < |t| ==> icao !in t[j]
  {
    if t == [] then None
    else if icao in t[0] then Some(0)
    else match Locate(t[1..], icao)
      case None => None
      case Some(j) => Some(j + 1)
  }

  /** `records[np.where(records == icao)[0][0]][col]` read. */
  function Get(t: Table, icao: string, col: nat, n: nat): (r: Result<string, LegacyError>)
    requires Wide(t) && col < 7
    ensures r.Ok? <==> Locate(t, icao).Some?
    ensures r.Ok? ==> r.value == t[Locate(t, icao).value][col]
    ensures r.Err? ==> r.error == LostRecord(n)
  {
    match Locate(t, icao)
    case None => Err(LostRecord(n))
    case Some(i) => Ok(t[i][col])
  }

  /** `records[np.where(records == icao)[0][0]][col] = v`: the row is looked
      up afresh, and only that one cell changes. */
  function Put(t: Table, icao: string, col: nat, v: string, n: nat): (r: Result<Table, LegacyError>)
    requires Wide(t) && col < 7
    ensures r.Ok? <==> Locate(t, icao).Some?
    ensures r.Err? ==> r.error == LostRecord(n)
    ensures r.Ok? ==> Wide(r.value) && |r.value| == |t|
    ensures r.Ok? ==> forall i, c :: 0 <= i < |t| && 0 <= c < 7 ==>
              r.value[i][c] == (if i == Locate(t, icao).value && c == col then v else t[i][c])
  {
    match Locate(t, icao)
    case None => Err(LostRecord(n))
    case Some(i) => Ok(t[i := t[i][col := v]])
  }

  /** A field indexed outside the `try` blocks. */
  function At(row: seq<string>, i: nat, n: nat): (r: Result<string, LegacyError>)
    ensures r.Ok? <==> i < |row|
    ensures r.Ok? ==> r.value == row[i]
    ensures r.Err? ==> r.error == ShortRow(n)
  {
    if i < |row| then Ok(row[i]) else Err(ShortRow(n))
  }

  /** `float(...)` of a stored cell, outside any `try`. */
  function Number(cfg: LegacyConfig, cell: string, n: nat): (r: Result<real, LegacyError>)
    ensures r.Ok? <==> cfg.parseFloat(cell).Some?
    ensures r.Ok? ==> r.value == cfg.parseFloat(cell).value
    ensures r.Err? ==> r.error == BadStoredNumber(n)
  {
    match cfg.parseFloat(cell)
    case Some(x) => Ok(x)
    case None => Err(BadStoredNumber(n))
  }

  /** The table, the loop-carried `falink` and the count of created rows. */
  datatype LState = LState(table: Table, falink: string, fltcounter: nat)

  const Init: LState := LState([Header], "", 0)

  function LastHeard(date: string, time: string): string {
    date + " " + Prefix(time, 8)
  }

  /** The adsbexchange link of a row: the station's coordinates, not the
      aircraft's, and the trace day cut from field 4. */
  function StationLink(cfg: LegacyConfig, icao: string, date: string): string {
    Planefence.AxLink(icao, cfg.latText, cfg.lonText, date)
  }

  /** Lines 145-148: an empty stored callsign takes the row's, and for
      flightaware `falink` is rebuilt from it. */
  function Backfill(cfg: LegacyConfig, st: LState, row: seq<string>, n: nat): (r: Result<LState, LegacyError>)
    requires Wide(st.table) && row != []
    ensures r.Ok? ==> Wide(r.value.table) && |r.value.table| == |st.table| && r.value.fltcounter == st.fltcounter
    ensures r.Ok? ==> forall i :: 0 <= i < |st.table| && row[0] !in st.table[i] ==> r.value.table[i] == st.table[i]
  {
    var c :- At(row, 11, n);
    if Strip2(c) == "" then Ok(st)
    else
      var t :- Put(st.table, row[0], CallsignCol, Strip2(c), n);
      Ok(LState(t, if cfg.service == Planefence.FlightAware then Planefence.FaLink(row[0], Strip2(c)) else st.falink,
                st.fltcounter))
  }

  /** Line 156/159: the stored minimum is replaced when the row's value is
      strictly smaller. */
  function KeepMin(cfg: LegacyConfig, t: Table, icao: string, col: nat, x: real, cell: Result<string, LegacyError>,
                 n: nat): (r: Result<Table, LegacyError>)
    requires Wide(t) && col < 7
    ensures r.Ok? ==> Wide(r.value) && |r.value| == |t|
    ensures r.Ok? ==> forall i :: 0 <= i < |t| && icao !in t[i] ==> r.value[i] == t[i]
  {
    var stored :- Get(t, icao, col, n);
    var was :- Number(cfg, stored, n);
    if x < was then
      var v :- cell;
      Put(t, icao, col, v, n)
    else Ok(t)
  }

  /** Lines 149-152: adsbexchange rebuilds `falink` from this row; either
      way the link cell takes the stripped `falink`. */
  function Relink(cfg: LegacyConfig, st: LState, row: seq<string>, n: nat): (r: Result<LState, LegacyError>)
    requires Wide(st.table) && row != []
    ensures r.Ok? ==> Wide(r.value.table) && |r.value.table| == |st.table| && r.value.fltcounter == st.fltcounter
    ensures r.Ok? ==> forall i :: 0 <= i < |st.table| && row[0] !in st.table[i] ==> r.value.table[i] == st.table[i]
  {
    var falink :-
      if cfg.service == Planefence.AdsbExchange then
        var d :- At(row, 4, n);
        Ok(StationLink(cfg, row[0], d))
      else Ok(st.falink);
    var t :- Put(st.table, row[0], LinkCol, Strip2(falink), n);
    Ok(LState(t, falink, st.fltcounter))
  }

  /** Lines 154-160: the last-heard cell, then the two minima. */
  function Remeasure(cfg: LegacyConfig, t: Table, row: seq<string>, n: nat, dist: real, alt: real)
    : (r: Result<Table, LegacyError>)
    requires Wide(t) && row != []
    ensures r.Ok? ==> Wide(r.value) && |r.value| == |t|
    ensures r.Ok? ==> forall i :: 0 <= i < |t| && row[0] !in t[i] ==> r.value[i] == t[i]
  {
    var d :- At(row, 4, n);
    var tm :- At(row, 5, n);
    var t1 :- Put(t, row[0], LastHeardCol, LastHeard(d, tm), n);
    var t2 :- KeepMin(cfg, t1, row[0], AltCol, alt, At(row, 1, n), n);
    KeepMin(cfg, t2, row[0], DistCol, dist, Ok(cfg.fmt1(dist)), n)
  }

  /** Lines 143-160: an in-range row whose ICAO is found somewhere in the
      table. */
  function Update(cfg: LegacyConfig, st: LState, row: seq<string>, n: nat, dist: real, alt: real)
    : (r: Result<LState, LegacyError>)
    requires Wide(st.table) && row != []
    ensures r.Ok? ==> Wide(r.value.table) && |r.value.table| == |st.table| && r.value.fltcounter == st.fltcounter
    ensures r.Ok? ==> forall i :: 0 <= i < |st.table| && row[0] !in st.table[i] ==> r.value.table[i] == st.table[i]
  {
    var cs :- Get(st.table, row[0], CallsignCol, n);
    var st1 :- if cs == "" then Backfill(cfg, st, row, n) else Ok(st);
    var st2 :- Relink(cfg, st1, row, n);
    var t :- Remeasure(cfg, st2.table, row, n, dist, alt);
    Ok(st2.(table := t))
  }

  /** The row an in-range sighting of an ICAO found nowhere in the table
      appends. */
  function NewRow(cfg: LegacyConfig, row: seq<string>, dist: real, falink: string): (r: seq<string>)
    requires |row| >= 12
    ensures |r| == 7
    ensures r[0] == row[0] && r[CallsignCol] == Strip2(row[11])
    ensures r[2] == LastHeard(row[4], row[5]) && r[LastHeardCol] == LastHeard(row[4], row[5])
    ensures r[AltCol] == row[1] && r[DistCol] == cfg.fmt1(dist)
    ensures r[LinkCol] == (if Strip2(row[11]) != "" then Strip2(falink) else "")
  {
    var cs := Strip2(row[11]);
    var heard := LastHeard(row[4], row[5]);
    [row[0], cs, heard, heard, row[1], cfg.fmt1(dist), if cs != "" then Strip2(falink) else ""]
  }

  /** Lines 162-176: the link is built for the service, then the row is
      appended. */
  function Create(cfg: LegacyConfig, st: LState, row: seq<string>, n: nat, dist: real): (r: Result<LState, LegacyError>)
    requires row != []
    ensures r.Ok? <==> |row| >= 12
    ensures r.Ok? ==> Wide(st.table) ==> Wide(r.value.table) && |r.value.table| == |st.table| + 1
    ensures r.Ok? ==> && r.value.fltcounter == st.fltcounter + 1
                      && r.value.table == st.table + [NewRow(cfg, row, dist, r.value.falink)]
                      && r.value.falink == (if cfg.service == Planefence.FlightAware
                                            then Planefence.FaLink(row[0], Strip2(row[11]))
                                            else StationLink(cfg, row[0], row[4]))
  {
    if |row| < 12 then Err(ShortRow(n))
    else
      var falink :=
        if cfg.service == Planefence.FlightAware then Planefence.FaLink(row[0], Strip2(row[11]))
        else StationLink(cfg, row[0], row[4]);
      Ok(LState(st.table + [NewRow(cfg, row, dist, falink)], falink, st.fltcounter + 1))
  }

  /** One CSV row, number `n`: skipped unless its ICAO has six characters,
      then updated in place, appended, or ignored when out of range. */
  function LStep(cfg: LegacyConfig, st: LState, row: seq<string>, n: nat): (r: Result<LState, LegacyError>)
    requires Wide(st.table)
    ensures r.Ok? ==> Wide(r.value.table) && |r.value.table| >= |st.table|
    ensures r.Ok? && |st.table| > 0 && st.table[0] == Header ==> r.value.table[0] == Header
  {
    if row == [] then Err(EmptyRow(n))
    else if |row[0]| != 6 then Ok(st)
    else
      var dist := RowDist(cfg, row);
      var alt := RowAlt(cfg, row);
      if !(dist <= cfg.maxDist && alt <= cfg.maxAlt) then Ok(st)
      else if Locate(st.table, row[0]).Some? then Update(cfg, st, row, n, dist, alt)
      else Create(cfg, st, row, n, dist)
  }

  /** The state after the rows in order, or the first exception. */
  function LFold(cfg: LegacyConfig, rows: seq<seq<string>>): (r: Result<LState, LegacyError>)
    ensures r.Ok? ==> Wide(r.value.table) && |r.value.table| >= 1 && r.value.table[0] == Header
  {
    if rows == [] then Ok(Init)
    else
      var st :- LFold(cfg, rows[..|rows| - 1]);
      LStep(cfg, st, rows[|rows| - 1], |rows| - 1)
  }

  datatype LOutcome = Written(rows: seq<seq<string>>) | NothingWritten | Aborted(error: LegacyError)

  /** The header is deleted and the rest written when a row was created. */
  function LRun(cfg: LegacyConfig, rows: seq<seq<string>>): LOutcome {
    match LFold(cfg, rows)
    case Err(e) => Aborted(e)
    case Ok(st) => if st.fltcounter > 0 then Written(st.table[1..]) else NothingWritten
  }

  /** The mutable state of `main`: the `records` table, `falink` and
      `fltcounter`. */
  class LegacyTable {
    var records: Table
    var falink: string
    var fltcounter: nat

    function State(): LState
      reads this
    {
      LState(records, falink, fltcounter)
    }

    constructor ()
      ensures State() == Init
    {
      records := [Header];
      falink := "";
      fltcounter := 0;
    }

    /** One cell assignment through a fresh lookup of the ICAO. */
    method Write(icao: string, col: nat, v: string, n: nat) returns (err: Option<LegacyError>)
      requires Wide(records) && col < 7
      modifies this`records
      ensures var r := Put(old(records), icao, col, v, n);
              && (r.Ok? ==> err == None && records == r.value)
              && (r.Err? ==> err == Some(r.error))
    {
      var at := Locate(records, icao);
      if at.None? {
        return Some(LostRecord(n));
      }
      records := records[at.value := records[at.value][col := v]];
      return None;
    }

    /** Lines 156-160: compare with the stored minimum, replace it when
      strictly smaller. */
    method LowerCell(cfg: LegacyConfig, icao: string, col: nat, x: real, cell: Result<string, LegacyError>, n: nat)
      returns (err: Option<LegacyError>)
      requires Wide(records) && col < 7
      modifies this`records
      ensures var r := KeepMin(cfg, old(records), icao, col, x, cell, n);
              && (r.Ok? ==> err == None && records == r.value)
              && (r.Err? ==> err == Some(r.error))
    {
      var stored := Get(records, icao, col, n);
      if stored.Err? {
        return Some(stored.error);
      }
      var was := Number(cfg, stored.value, n);
      if was.Err? {
        return Some(was.error);
      }
      if x < was.value {
        if cell.Err? {
          return Some(cell.error);
        }
        err := Write(icao, col, cell.value, n);
      } else {
        err := None;
      }
    }

    /** Lines 145-148. */
    method BackfillRow(cfg: LegacyConfig, row: seq<string>, n: nat) returns (err: Option<LegacyError>)
      requires Wide(records) && row != []
      modifies this
      ensures var r := Backfill(cfg, old(State()), row, n);
              && (r.Ok? ==> err == None && State() == r.value)
              && (r.Err? ==> err == Some(r.error))
    {
      if |row| <= 11 {
        return Some(ShortRow(n));
      }
      var c := Strip2(row[11]);
      if c != "" {
        err := Write(row[0], CallsignCol, c, n);
        if err.Some? {
          return;
        }
        if cfg.service == Planefence.FlightAware {
          falink := Planefence.FaLink(row[0], c);
        }
      } else {
        err := None;
      }
    }

    /** Lines 149-152. */
    method RelinkRow(cfg: LegacyConfig, row: seq<string>, n: nat) returns (err: Option<LegacyError>)
      requires Wide(records) && row != []
      modifies this
      ensures var r := Relink(cfg, old(State()), row, n);
              && (r.Ok? ==> err == None && State() == r.value)
              && (r.Err? ==> err == Some(r.error))
    {
      if cfg.service == Planefence.AdsbExchange {
        if |row| <= 4 {
          return Some(ShortRow(n));
        }
        falink := StationLink(cfg, row[0], row[4]);
      }
      err := Write(row[0], LinkCol, Strip2(falink), n);
    }

    /** Lines 154-160. */
    method RemeasureRow(cfg: LegacyConfig, row: seq<string>, n: nat, dist: real, alt: real) returns (err: Option<LegacyError>)
      requires Wide(records) && row != []
      modifies this`records
      ensures var r := Remeasure(cfg, old(records), row, n, dist, alt);
              && (r.Ok? ==> err == None && records == r.value)
              && (r.Err? ==> err == Some(r.error))
    {
      if |row| <= 5 {
        return Some(ShortRow(n));
      }
      err := Write(row[0], LastHeardCol, LastHeard(row[4], row[5]), n);
      if err.Some? {
        return;
      }
      err := LowerCell(cfg, row[0], AltCol, alt, At(row, 1, n), n);
      if err.Some? {
        return;
      }
      err := LowerCell(cfg, row[0], DistCol, dist, Ok(cfg.fmt1(dist)), n);
    }

    /** Lines 143-160, cell by cell in the script's order. */
    method UpdateRow(cfg: LegacyConfig, row: seq<string>, n: nat, dist: real, alt: real) returns (err: Option<LegacyError>)
      requires Wide(records) && row != []
      modifies this
      ensures var r := Update(cfg, old(State()), row, n, dist, alt);
              && (r.Ok? ==> err == None && State() == r.value)
              && (r.Err? ==> err == Some(r.error))
    {
      var cs := Get(records, row[0], CallsignCol, n);
      if cs.Err? {
        return Some(cs.error);
      }
      if cs.value == "" {
        err := BackfillRow(cfg, row, n);
        if err.Some? {
          return;
        }
      }
      err := RelinkRow(cfg, row, n);
      if err.Some? {
        return;
      }
      err := RemeasureRow(cfg, row, n, dist, alt);
    }

    /** Lines 162-176: build the link, append the row, count it. */
    method AppendRow(cfg: LegacyConfig, row: seq<string>, n: nat, dist: real) returns (err: Option<LegacyError>)
      requires row != []
      modifies this
      ensures var r := Create(cfg, old(State()), row, n, dist);
              && (r.Ok? ==> err == None && State() == r.value)
              && (r.Err? ==> err == Some(r.error))
    {
      if |row| < 12 {
        return Some(ShortRow(n));
      }
      if cfg.service == Planefence.FlightAware {
        falink := Planefence.FaLink(row[0], Strip2(row[11]));
      } else {
        falink := StationLink(cfg, row[0], row[4]);
      }
      records := records + [NewRow(cfg, row, dist, falink)];
      fltcounter := fltcounter + 1;
      return None;
    }

    /** The body of the `for row in reader` loop. */
    method Observe(cfg: LegacyConfig, row: seq<string>, n: nat) returns (err: Option<LegacyError>)
      requires Wide(records)
      modifies this
      ensures var r := LStep(cfg, old(State()), row, n);
              && (r.Ok? ==> err == None && State() == r.value)
              && (r.Err? ==> err == Some(r.error))
    {
      if row == [] {
        return Some(EmptyRow(n));
      }
      if |row[0]| != 6 {
        return None;
      }
      var dist := RowDist(cfg, row);
      var alt := RowAlt(cfg, row);
      if !(dist <= cfg.maxDist && alt <= cfg.maxAlt) {
        return None;
      }
      if Locate(records, row[0]).Some? {
        err := UpdateRow(cfg, row, n, dist, alt);
      } else {
        err := AppendRow(cfg, row, n, dist);
      }
    }
  }

  /** `main` after its argument checks: the loop over the rows, the header
      deletion and the conditional write. */
  method LegacyMain(cfg: LegacyConfig, rows: seq<seq<string>>) returns (out: LOutcome)
    ensures out == LRun(cfg, rows)
  {
    var t := new LegacyTable();
    var i := 0;
    while i < |rows|
      invariant 0 <= i <= |rows|
      invariant LFold(cfg, rows[..i]) == Ok(t.State())
    {
      assert rows[..i + 1][..i] == rows[..i];
      ghost var before := t.State();
      var err := t.Observe(cfg, rows[i], i);
      if err.Some? {
        LFoldFails(cfg, rows, i, before);
        return Aborted(err.value);
      }
      i := i + 1;
    }
    assert rows[..i] == rows;
    var kept := t.records[1..];
    if t.fltcounter > 0 {
      out := Written(kept);
    } else {
      out := NothingWritten;
    }
  }

  /** An exception on one row ends the run with that exception whatever
      follows. */
  lemma {:induction false} LFoldFails(cfg: LegacyConfig, rows: seq<seq<string>>, i: nat, st: LState)
    requires i < |rows|
    requires LFold(cfg, rows[..i]) == Ok(st)
    requires LStep(cfg, st, rows[i], i).Err?
    ensures LFold(cfg, rows) == Err(LStep(cfg, st, rows[i], i).error)
    decreases |rows|
  {
    if i < |rows| - 1 {
      var front := rows[..|rows| - 1];
      assert front[..i] == rows[..i];
      LFoldFails(cfg, front, i, st);
    } else {
      assert rows[..|rows| - 1] == rows[..i];
    }
  }
}
