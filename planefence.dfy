/** The Planefence sighting aggregator (Python 3 version): folds a stream of
    12-field ADS-B sighting rows into one summary record per ICAO address and
    emits the records in creation order. */
module Planefence {
  import opened Wrappers
  import opened PyStr

  /** Stand-in value for a distance or altitude that is missing or unparsable. */
  const Sentinel: int := 999999

  datatype TrackService = AdsbExchange | FlightAware

  datatype DistUnit = Km | Nm | Mi | M

  /** The checks that end the run before the log file is read. */
  datatype ArgError = MissingLogfile | BadTrackService | BadDistUnit | NegativeAltCorr

  /** Run-wide parameters of the fold. `parseFloat` is Python's `float(...)`
      on a field: `None` where it raises. */
  datatype Config = Config(
    maxDist: real,
    maxAlt: real,
    altCorr: int,
    service: TrackService,
    parseFloat: string -> Option<real>)

  function ParseTrackService(s: string): (r: Option<TrackService>)
    ensures r == Some(AdsbExchange) <==> s == "adsbexchange"
    ensures r == Some(FlightAware) <==> s == "flightaware"
  {
    if s == "adsbexchange" then Some(AdsbExchange)
    else if s == "flightaware" then Some(FlightAware)
    else None
  }

  function ParseDistUnit(s: string): (r: Option<DistUnit>)
    ensures r.Some? <==> s in {"km", "nm", "mi", "m"}
  {
    if s == "km" then Some(Km)
    else if s == "nm" then Some(Nm)
    else if s == "mi" then Some(Mi)
    else if s == "m" then Some(M)
    else None
  }

  /** The argument checks, in the order the script makes them; the first that
      fails decides the error. The distance unit is validated but the current
      script never uses it afterwards. */
  function CheckArgs(logfile: string, trackservice: string, distunit: string, altcorr: int,
                     maxDist: real, maxAlt: real, parseFloat: string -> Option<real>): (r: Result<Config, ArgError>)
    ensures r.Ok? <==> logfile != "" && trackservice in {"adsbexchange", "flightaware"}
                       && distunit in {"km", "nm", "mi", "m"} && altcorr >= 0
    ensures logfile == "" ==> r == Err(MissingLogfile)
    ensures logfile != "" && trackservice !in {"adsbexchange", "flightaware"} ==> r == Err(BadTrackService)
    ensures logfile != "" && trackservice in {"adsbexchange", "flightaware"} && distunit !in {"km", "nm", "mi", "m"}
            ==> r == Err(BadDistUnit)
    ensures (logfile != "" && trackservice in {"adsbexchange", "flightaware"} && distunit in {"km", "nm", "mi", "m"}
             && altcorr < 0) ==> r == Err(NegativeAltCorr)
    ensures r.Ok? ==> r.value.maxDist == maxDist && r.value.maxAlt == maxAlt && r.value.altCorr == altcorr
                      && (r.value.service == FlightAware <==> trackservice == "flightaware")
  {
    if logfile == "" then Err(MissingLogfile)
    else if ParseTrackService(trackservice).None? then Err(BadTrackService)
    else if ParseDistUnit(distunit).None? then Err(BadDistUnit)
    else if altcorr < 0 then Err(NegativeAltCorr)
    else Ok(Config(maxDist, maxAlt, altcorr, ParseTrackService(trackservice).value, parseFloat))
  }

  /** Python's `int(x)` on a float: truncation toward zero. */
  function PyInt(x: real): (r: int)
    ensures 0.0 <= x ==> 0 <= r && r as real <= x < r as real + 1.0
    ensures x < 0.0 ==> r <= 0 && r as real - 1.0 < x <= r as real
  {
    if x >= 0.0 then x.Floor else -((-x).Floor)
  }

  /** One decoded sighting: the fields the fold reads, the callsign already
      stripped, and the effective altitude and distance. */
  datatype Sighting = Sighting(
    icao: string,
    lat: string,
    lon: string,
    date: string,
    time: string,
    callsign: string,
    alt: int,
    dist: real)

  /** The NUL bytes a corrupted log line may hold are removed before the line
      is split; NUL is neither the delimiter nor the quote, so removing it
      field by field gives the same fields. */
  function CleanRow(row: seq<string>): (r: seq<string>)
    ensures |r| == |row|
    ensures forall i :: 0 <= i < |r| ==> '\0' !in r[i]
    ensures forall i :: 0 <= i < |r| ==> |r[i]| == |row[i]| - Occurrences(row[i], '\0')
    ensures forall i, x :: 0 <= i < |r| && x != '\0' ==> (x in r[i] <==> x in row[i])
    ensures forall i :: 0 <= i < |r| && '\0' !in row[i] ==> r[i] == row[i]
    ensures forall i :: 0 <= i < |r| ==> r[i] == RemoveChar(row[i], '\0')
  {
    forall i | 0 <= i < |row| && '\0' !in row[i] {
      RemoveCharAbsent(row[i], '\0');
    }
    seq(|row|, i requires 0 <= i < |row| => RemoveChar(row[i], '\0'))
  }

  /** Unpacks a row into its twelve named fields; any other field count raises
      at the unpack. Distance and altitude keep the sentinel unless the ICAO
      is six characters long and the field parses; the altitude is corrected
      and then truncated to an integer. */
  function Decode(cfg: Config, row: seq<string>): (r: Option<Sighting>)
    ensures r.Some? <==> |row| == 12
    ensures r.Some? ==> r.value.icao == row[0] && r.value.lat == row[2] && r.value.lon == row[3]
                        && r.value.date == row[4] && r.value.time == row[5]
                        && r.value.callsign == Strip(row[11])
    ensures r.Some? && |row[0]| != 6 ==> r.value.alt == Sentinel && r.value.dist == Sentinel as real
    ensures r.Some? && |row[0]| == 6 ==>
              r.value.dist == cfg.parseFloat(row[7]).GetOr(Sentinel as real)
              && r.value.alt == (match cfg.parseFloat(row[1])
                                 case Some(a) => PyInt(a - cfg.altCorr as real)
                                 case None => Sentinel)
  {
    if |row| != 12 then None
    else
      var icao := row[0];
      var dist: real := if |icao| == 6 then cfg.parseFloat(row[7]).GetOr(Sentinel as real) else Sentinel as real;
      var alt: real :=
        if |icao| == 6 && cfg.parseFloat(row[1]).Some? then cfg.parseFloat(row[1]).value - cfg.altCorr as real
        else Sentinel as real;
      Some(Sighting(icao, row[2], row[3], row[4], row[5], Strip(row[11]), PyInt(alt), dist))
  }

  /** `date + ' ' + time[:8]`. */
  function Heard(s: Sighting): string {
    s.date + " " + Prefix(s.time, 8)
  }

  /** Both thresholds are inclusive and both must hold. */
  predicate InFence(cfg: Config, s: Sighting) {
    s.dist <= cfg.maxDist && s.alt as real <= cfg.maxAlt
  }

  const AxPrefix: string := "https://globe.adsbexchange.com/?icao="

  /** `get_ax_link` as it runs: its `try` block always fails on the undefined
      `naive`, so the link is the degraded one, with the date fields sliced
      out of the raw date and no time or timestamp. `lat`/`lon` are the
      sighting's own coordinates. */
  function AxLink(icao: string, lat: string, lon: string, date: string): string {
    AxPrefix + Lower(icao) + "&lat=" + lat + "&lon=" + lon + "&zoom=12"
    + "&showTrace=" + Slice(date, 0, 4) + "-" + Slice(date, 5, 7) + "-" + Slice(date, 8, 10)
  }

  const FaPrefix: string := "https://flightaware.com/live/modes/"

  function FaLink(icao: string, callsign: string): string {
    FaPrefix + Lower(icao) + "/ident/" + callsign + "/redirect"
  }

  /** The stored tracking link for an in-fence sighting, given the record's
      callsign at that moment. */
  function TrackLink(cfg: Config, s: Sighting, callsign: string): string {
    match cfg.service
    case FlightAware => Strip(FaLink(s.icao, callsign))
    case AdsbExchange => Strip(AxLink(s.icao, s.lat, s.lon, s.date))
  }

  /** How a record's link is built from an in-fence sighting and the
      record's callsign at that moment. */
  type Linker = (Sighting, string) -> string

  /** The link builder of the configured tracking service. */
  function Links(cfg: Config): Linker {
    (s: Sighting, callsign: string) => TrackLink(cfg, s, callsign)
  }

  /** A summary record, also one row of the output. */
  datatype Track = Track(
    icao: string,
    callsign: string,
    firstHeard: string,
    lastHeard: string,
    minAlt: int,
    minDist: real,
    link: string)

  /** The `records` dict: its entries and their insertion order. */
  datatype TableView = TableView(tracks: map<string, Track>, order: seq<string>)

  predicate NoDup(s: seq<string>) {
    forall i, j :: 0 <= i < j < |s| ==> s[i] != s[j]
  }

  /** Every record sits under its own ICAO, and the insertion order lists each
      key exactly once. */
  ghost predicate TableOk(t: TableView) {
    && (forall k :: k in t.tracks ==> t.tracks[k].icao == k)
    && NoDup(t.order)
    && (forall k :: k in t.tracks <==> k in t.order)
  }

  const Empty: TableView := TableView(map[], [])

  /** The callsign backfill: an existing record with an empty callsign takes
      the sighting's non-empty callsign, whether or not it is in the fence. */
  function Backfill(t: TableView, s: Sighting): TableView {
    if s.icao in t.tracks && t.tracks[s.icao].callsign == "" && s.callsign != "" then
      t.(tracks := t.tracks[s.icao := t.tracks[s.icao].(callsign := s.callsign)])
    else t
  }

  /** An in-fence sighting of a known ICAO: it is the last one heard, it may
      lower either minimum, and it regenerates the link. */
  function Refresh(link: Linker, rec: Track, s: Sighting): Track {
    rec.(lastHeard := Heard(s),
         minAlt := if s.alt < rec.minAlt then s.alt else rec.minAlt,
         minDist := if s.dist < rec.minDist then s.dist else rec.minDist,
         link := link(s, rec.callsign))
  }

  /** The record the first in-fence sighting of an ICAO creates. */
  function Create(link: Linker, s: Sighting): Track {
    Track(s.icao, s.callsign, Heard(s), Heard(s), s.alt, s.dist, link(s, s.callsign))
  }

  /** The in-fence part of a step, after the backfill. */
  function Enter(link: Linker, t: TableView, s: Sighting): TableView {
    if s.icao in t.tracks then
      t.(tracks := t.tracks[s.icao := Refresh(link, t.tracks[s.icao], s)])
    else
      TableView(t.tracks[s.icao := Create(link, s)], t.order + [s.icao])
  }

  /** The effect of one decoded row on the table. */
  function Step(cfg: Config, link: Linker, t: TableView, s: Sighting): TableView {
    var t1 := Backfill(t, s);
    if InFence(cfg, s) then Enter(link, t1, s) else t1
  }

  /** A step keeps every record under its own ICAO and the insertion order
      free of repeats. */
  lemma StepOk(cfg: Config, link: Linker, t: TableView, s: Sighting)
    requires TableOk(t)
    ensures TableOk(Step(cfg, link, t, s))
  {
    var t1 := Backfill(t, s);
    assert TableOk(t1);
    if InFence(cfg, s) && s.icao !in t1.tracks {
      assert forall i :: 0 <= i < |t1.order| ==> t1.order[i] in t1.tracks;
    }
  }

  /** Insertion order only grows, and only by an ICAO seen in the fence for
      the first time; no other record is touched. */
  lemma StepKeys(cfg: Config, link: Linker, t: TableView, s: Sighting)
    requires TableOk(t)
    ensures var r := Step(cfg, link, t, s);
            && (r.order == t.order || (InFence(cfg, s) && s.icao !in t.tracks && r.order == t.order + [s.icao]))
            && r.tracks.Keys == t.tracks.Keys + (if InFence(cfg, s) then {s.icao} else {})
            && forall k :: k in t.tracks && k != s.icao ==> r.tracks[k] == t.tracks[k]
  {
  }

  /** An out-of-fence sighting changes at most a callsign. */
  lemma StepOutOfFence(cfg: Config, link: Linker, t: TableView, s: Sighting)
    requires TableOk(t) && !InFence(cfg, s)
    ensures var r := Step(cfg, link, t, s);
            r.order == t.order && r.tracks.Keys == t.tracks.Keys
            && forall k :: k in t.tracks ==> r.tracks[k] == t.tracks[k].(callsign := r.tracks[k].callsign)
  {
  }

  /** A non-empty callsign is never overwritten; an empty one is backfilled by
      any sighting of the same ICAO that carries one, in the fence or not. */
  lemma StepCallsign(cfg: Config, link: Linker, t: TableView, s: Sighting)
    requires TableOk(t)
    ensures var r := Step(cfg, link, t, s);
            && (forall k :: k in t.tracks && t.tracks[k].callsign != "" ==> r.tracks[k].callsign == t.tracks[k].callsign)
            && (s.icao in t.tracks && t.tracks[s.icao].callsign == "" ==> r.tracks[s.icao].callsign == s.callsign)
  {
  }

  /** The minima never rise; an in-fence sighting is taken into them, and a
      minimum only ever takes a sighting's own value. */
  lemma StepMinima(cfg: Config, link: Linker, t: TableView, s: Sighting)
    requires TableOk(t)
    ensures var r := Step(cfg, link, t, s);
            && (forall k :: k in t.tracks ==>
                  && r.tracks[k].minAlt <= t.tracks[k].minAlt && r.tracks[k].minDist <= t.tracks[k].minDist
                  && (r.tracks[k].minAlt == t.tracks[k].minAlt || r.tracks[k].minAlt == s.alt)
                  && (r.tracks[k].minDist == t.tracks[k].minDist || r.tracks[k].minDist == s.dist))
            && (InFence(cfg, s) ==> r.tracks[s.icao].minAlt <= s.alt && r.tracks[s.icao].minDist <= s.dist)
  {
  }

  /** An in-fence sighting becomes the record's last-heard time and regenerates
      its link; a new record starts from this sighting alone. */
  lemma StepInFence(cfg: Config, link: Linker, t: TableView, s: Sighting)
    requires TableOk(t) && InFence(cfg, s)
    ensures var r := Step(cfg, link, t, s);
            && r.tracks[s.icao].lastHeard == Heard(s)
            && r.tracks[s.icao].link == link(s, r.tracks[s.icao].callsign)
            && (forall k :: k in t.tracks ==> r.tracks[k].firstHeard == t.tracks[k].firstHeard)
            && (s.icao !in t.tracks ==>
                  r.tracks[s.icao] == Track(s.icao, s.callsign, Heard(s), Heard(s), s.alt, s.dist,
                                            link(s, s.callsign)))
  {
  }

  /** The table after a sequence of decoded sightings, in arrival order. */
  function Fold(cfg: Config, link: Linker, ss: seq<Sighting>): (r: TableView)
    ensures TableOk(r)
  {
    if ss == [] then Empty
    else
      var t := Fold(cfg, link, ss[..|ss| - 1]);
      StepOk(cfg, link, t, ss[|ss| - 1]);
      Step(cfg, link, t, ss[|ss| - 1])
  }

  /** Folding one more sighting is one more step. */
  lemma FoldNext(cfg: Config, link: Linker, ss: seq<Sighting>, s: Sighting)
    ensures Fold(cfg, link, ss + [s]) == Step(cfg, link, Fold(cfg, link, ss), s)
  {
    assert (ss + [s])[..|ss|] == ss;
  }

  /** A row that does not unpack into twelve fields stops the run. */
  datatype RunError = BadRowShape(row: nat)

  /** The rows decoded in order, or the first one that fails to unpack. */
  function DecodeAll(cfg: Config, rows: seq<seq<string>>): (r: Result<seq<Sighting>, RunError>)
    ensures r.Ok? ==> |r.value| == |rows|
  {
    if rows == [] then Ok([])
    else
      match DecodeAll(cfg, rows[..|rows| - 1])
      case Err(e) => Err(e)
      case Ok(ss) =>
        match Decode(cfg, CleanRow(rows[|rows| - 1]))
        case None => Err(BadRowShape(|rows| - 1))
        case Some(s) => Ok(ss + [s])
  }

  /** The output rows: one per record, in insertion order. */
  function Output(t: TableView): (rows: seq<Track>)
    requires TableOk(t)
    ensures |rows| == |t.order|
    ensures forall i :: 0 <= i < |rows| ==> rows[i] == t.tracks[t.order[i]] && rows[i].icao == t.order[i]
  {
    seq(|t.order|, i requires 0 <= i < |t.order| => t.tracks[t.order[i]])
  }

  /** What a run leaves behind: the CSV rows, no file at all, or an exception. */
  datatype Outcome = Written(rows: seq<Track>) | NothingWritten | Aborted(error: RunError)

  function Run(cfg: Config, rows: seq<seq<string>>): Outcome {
    match DecodeAll(cfg, rows)
    case Err(e) => Aborted(e)
    case Ok(ss) =>
      var t := Fold(cfg, Links(cfg), ss);
      if |t.order| > 0 then Written(Output(t)) else NothingWritten
  }

  /** A summary record, updated in place by later sightings. */
  class Record {
    const icao: string
    var callsign: string
    const firstHeard: string
    var lastHeard: string
    var minAlt: int
    var minDist: real
    var link: string

    constructor (icao: string, callsign: string, firstHeard: string, lastHeard: string,
                 minAlt: int, minDist: real, link: string)
      ensures View() == Track(icao, callsign, firstHeard, lastHeard, minAlt, minDist, link)
    {
      this.icao := icao;
      this.callsign := callsign;
      this.firstHeard := firstHeard;
      this.lastHeard := lastHeard;
      this.minAlt := minAlt;
      this.minDist := minDist;
      this.link := link;
    }

    function View(): Track
      reads this
    {
      Track(icao, callsign, firstHeard, lastHeard, minAlt, minDist, link)
    }

    /** The in-place update an in-fence sighting of this ICAO makes. */
    method Absorb(cfg: Config, s: Sighting)
      modifies this
      ensures View() == Refresh(Links(cfg), old(View()), s)
    {
      lastHeard := Heard(s);
      if s.alt < minAlt {
        minAlt := s.alt;
      }
      if s.dist < minDist {
        minDist := s.dist;
      }
      link := TrackLink(cfg, s, callsign);
    }
  }

  /** The `records` dict of `main` (which keeps insertion order) and the
      `fltcounter` of created records. `tracks` is the value of each record,
      kept in step with the objects. */
  class Tracker {
    var records: map<string, Record>
    var order: seq<string>
    var fltcounter: nat
    ghost var tracks: map<string, Track>
    ghost var Repr: set<Record>

    ghost predicate Valid()
      reads this, Repr
    {
      && records.Keys == tracks.Keys
      && (forall k :: k in records ==>
            records[k] in Repr && records[k].icao == k && records[k].View() == tracks[k])
      && NoDup(order)
      && (forall k :: k in records <==> k in order)
      && fltcounter == |order|
    }

    ghost function View(): TableView
      reads this
    {
      TableView(tracks, order)
    }

    lemma ViewOk()
      requires Valid()
      ensures TableOk(View())
    {
    }

    constructor ()
      ensures Valid() && View() == Empty && records == map[] && Repr == {}
    {
      records := map[];
      order := [];
      fltcounter := 0;
      tracks := map[];
      Repr := {};
    }

    /** The body of the `for row in reader` loop for a row that unpacked. */
    /** One pass of the loop body of `main` over row `i`, after the rows
        before it decoded to `ss`: the row is unpacked and its sighting
        observed, or the run ends there. */
    method ObserveRow(cfg: Config, rows: seq<seq<string>>, i: nat, ghost ss: seq<Sighting>)
      returns (ok: bool, ghost ss': seq<Sighting>)
      requires Valid() && i < |rows| && DecodeAll(cfg, rows[..i]) == Ok(ss)
      requires View() == Fold(cfg, Links(cfg), ss)
      modifies this, Repr
      ensures Valid() && fresh(Repr - old(Repr))
      ensures ok <==> Decode(cfg, CleanRow(rows[i])).Some?
      ensures ok ==> DecodeAll(cfg, rows[..i + 1]) == Ok(ss') && View() == Fold(cfg, Links(cfg), ss')
      ensures !ok ==> DecodeAll(cfg, rows) == Err(BadRowShape(i))
    {
      DecodeAllNext(cfg, rows, i, ss);
      var decoded := Decode(cfg, CleanRow(rows[i]));
      if decoded.None? {
        DecodeAllFails(cfg, rows, i);
        return false, ss;
      }
      FoldNext(cfg, Links(cfg), ss, decoded.value);
      Observe(cfg, decoded.value);
      return true, ss + [decoded.value];
    }

    method Observe(cfg: Config, s: Sighting)
      requires Valid()
      modifies this, Repr
      ensures Valid()
      ensures View() == Step(cfg, Links(cfg), old(View()), s)
      ensures fresh(Repr - old(Repr))
    {
      BackfillCallsign(s);
      if InFence(cfg, s) {
        if s.icao in records {
          UpdateRecord(cfg, s);
        } else {
          CreateRecord(cfg, s);
        }
      }
    }

    /** An existing record with an empty callsign takes the sighting's. */
    method BackfillCallsign(s: Sighting)
      requires Valid()
      modifies this`tracks, Repr
      ensures Valid() && records == old(records) && Repr == old(Repr)
      ensures View() == Backfill(old(View()), s)
    {
      if s.icao in records {
        var rec := records[s.icao];
        if rec.callsign == "" && s.callsign != "" {
          rec.callsign := s.callsign;
          tracks := tracks[s.icao := rec.View()];
          forall k | k in records && k != s.icao
            ensures records[k].View() == tracks[k]
          {
            assert records[k] != rec;
          }
        }
      }
    }

    /** An in-fence sighting of a known ICAO: last-heard time, minima, link. */
    method UpdateRecord(cfg: Config, s: Sighting)
      requires Valid() && s.icao in records
      modifies this`tracks, Repr
      ensures Valid() && records == old(records) && Repr == old(Repr)
      ensures View() == Enter(Links(cfg), old(View()), s)
    {
      var rec := records[s.icao];
      rec.Absorb(cfg, s);
      tracks := tracks[s.icao := rec.View()];
      forall k | k in records && k != s.icao
        ensures records[k].View() == tracks[k]
      {
        assert records[k] != rec;
      }
    }

    /** The first in-fence sighting of an ICAO creates its record. */
    method CreateRecord(cfg: Config, s: Sighting)
      requires Valid() && s.icao !in records
      modifies this
      ensures Valid()
      ensures View() == Enter(Links(cfg), old(View()), s)
      ensures fresh(Repr - old(Repr))
    {
      var rec := new Record(s.icao, s.callsign, Heard(s), Heard(s), s.alt, s.dist,
                            TrackLink(cfg, s, s.callsign));
      Insert(rec);
    }

    /** Files a new record under its ICAO, at the end of the insertion order. */
    method Insert(rec: Record)
      requires Valid() && rec.icao !in records && rec !in Repr
      modifies this
      ensures Valid() && Repr == old(Repr) + {rec}
      ensures View() == TableView(old(tracks)[rec.icao := rec.View()], old(order) + [rec.icao])
    {
      records, order, fltcounter := records[rec.icao := rec], order + [rec.icao], fltcounter + 1;
      tracks := tracks[rec.icao := rec.View()];
      Repr := Repr + {rec};
    }

    /** The output rows, built from the records in insertion order. */
    method Emit() returns (rows: seq<Track>)
      requires Valid()
      ensures rows == Output(View())
    {
      rows := [];
      var i := 0;
      while i < |order|
        invariant 0 <= i <= |order|
        invariant |rows| == i
        invariant forall j :: 0 <= j < i ==> rows[j] == records[order[j]].View()
      {
        var rec := records[order[i]];
        rows := rows + [Track(rec.icao, rec.callsign, rec.firstHeard, rec.lastHeard, rec.minAlt, rec.minDist, rec.link)];
        i := i + 1;
      }
    }
  }

  /** `main` after its argument checks: read every row, then write the table
      when at least one record was created. */
  method Aggregate(cfg: Config, rows: seq<seq<string>>) returns (out: Outcome)
    ensures out == Run(cfg, rows)
  {
    var tracker := new Tracker();
    ghost var ss: seq<Sighting> := [];
    var i := 0;
    while i < |rows|
      invariant 0 <= i <= |rows|
      invariant tracker.Valid()
      invariant fresh(tracker)
      invariant fresh(tracker.Repr)
      invariant DecodeAll(cfg, rows[..i]) == Ok(ss)
      invariant tracker.View() == Fold(cfg, Links(cfg), ss)
    {
      var ok;
      ok, ss := tracker.ObserveRow(cfg, rows, i, ss);
      if !ok {
        return Aborted(BadRowShape(i));
      }
      i := i + 1;
    }
    assert rows[..i] == rows;
    if tracker.fltcounter > 0 {
      var written := tracker.Emit();
      out := Written(written);
    } else {
      out := NothingWritten;
    }
  }

  /** Decoding one more row either appends its sighting or raises there. */
  lemma DecodeAllNext(cfg: Config, rows: seq<seq<string>>, i: nat, ss: seq<Sighting>)
    requires i < |rows| && DecodeAll(cfg, rows[..i]) == Ok(ss)
    ensures DecodeAll(cfg, rows[..i + 1])
            == match Decode(cfg, CleanRow(rows[i]))
               case None => Err(BadRowShape(i))
               case Some(s) => Ok(ss + [s])
  {
    assert rows[..i + 1][..i] == rows[..i];
  }

  /** A row that fails to unpack ends the run with its own index whatever
      follows it. */
  lemma {:induction false} DecodeAllFails(cfg: Config, rows: seq<seq<string>>, i: nat)
    requires i < |rows|
    requires DecodeAll(cfg, rows[..i]).Ok?
    requires Decode(cfg, CleanRow(rows[i])).None?
    ensures DecodeAll(cfg, rows) == Err(BadRowShape(i))
    decreases |rows|
  {
    if i < |rows| - 1 {
      var front := rows[..|rows| - 1];
      assert front[..i] == rows[..i];
      DecodeAllFails(cfg, front, i);
    } else {
      assert rows[..|rows| - 1] == rows[..i];
    }
  }
}
