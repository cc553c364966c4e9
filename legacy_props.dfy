/** What the legacy table fold keeps true, row after row: the header stays
    in place and is never taken for a record, every record row has seven
    cells and its own six-character ICAO, and the callsign, altitude and
    distance cells change only in the ways the script intends. */
module LegacyProps {
  import opened Wrappers
  import opened PyStr
  import Planefence
  import opened Legacy

  /** No header cell is six characters long, so no ICAO the loop looks up
      can match the header row. */
  lemma HeaderNeverMatched(t: Table, icao: string)
    requires |t| > 0 && t[0] == Header && |icao| == 6
    ensures Locate(t, icao) != Some(0)
  {
    assert icao !in Header;
  }

  /** The invariant of the legacy table. */
  predicate Inv(st: LState) {
    && |st.table| >= 1
    && st.table[0] == Header
    && Wide(st.table)
    && st.fltcounter == |st.table| - 1
    && (forall i :: 1 <= i < |st.table| ==> |st.table[i][0]| == 6)
    && (forall i, j :: 1 <= i < j < |st.table| ==> st.table[i][0] != st.table[j][0])
  }

  /** `t2` is `t` with at most cells of columns 1 to 6 of record rows
      changed. */
  predicate Keeps(t: Table, t2: Table) {
    && |t2| == |t|
    && Wide(t2)
    && (|t| > 0 ==> t2[0] == t[0])
    && (forall i :: 0 <= i < |t| && |t[i]| > 0 && |t2[i]| > 0 ==> t2[i][0] == t[i][0])
  }

  /** Column `col` is untouched from `t` to `t2`. */
  predicate ColKept(t: Table, t2: Table, col: nat) {
    |t2| == |t| && forall i :: 0 <= i < |t| && col < |t[i]| && col < |t2[i]| ==> t2[i][col] == t[i][col]
  }

  /** The table the table-level operations start from. */
  predicate Headed(t: Table) {
    |t| > 0 && t[0] == Header && Wide(t)
  }

  lemma PutKeeps(t: Table, icao: string, col: nat, v: string, n: nat)
    requires Headed(t) && |icao| == 6 && 1 <= col < 7 && Put(t, icao, col, v, n).Ok?
    ensures Keeps(t, Put(t, icao, col, v, n).value)
    ensures forall c :: 0 <= c < 7 && c != col ==> ColKept(t, Put(t, icao, col, v, n).value, c)
  {
    HeaderNeverMatched(t, icao);
  }

  /** From `t` to `t2`, a cell of column `col` that changed now holds `v`,
      and held a stored number above `x`. */
  predicate MinOnly(cfg: LegacyConfig, t: Table, t2: Table, col: nat, x: real, v: string) {
    |t2| == |t| && forall i :: 0 <= i < |t| && col < |t[i]| && col < |t2[i]| && t2[i][col] != t[i][col] ==>
      && t2[i][col] == v
      && cfg.parseFloat(t[i][col]).Some? && x < cfg.parseFloat(t[i][col]).value
  }

  lemma ColKeptTrans(t: Table, t1: Table, t2: Table, col: nat)
    requires Wide(t) && Wide(t1) && ColKept(t, t1, col) && ColKept(t1, t2, col)
    ensures ColKept(t, t2, col)
  {
  }

  lemma KeepsTrans(t: Table, t1: Table, t2: Table)
    requires Keeps(t, t1) && Keeps(t1, t2) && Wide(t)
    ensures Keeps(t, t2)
  {
  }

  lemma MinOnlyThen(cfg: LegacyConfig, t: Table, t1: Table, t2: Table, col: nat, x: real, v: string)
    requires Wide(t) && Wide(t1) && Wide(t2) && col < 7
    requires ColKept(t, t1, col) && MinOnly(cfg, t1, t2, col, x, v)
    ensures MinOnly(cfg, t, t2, col, x, v)
  {
  }

  lemma MinOnlyBefore(cfg: LegacyConfig, t: Table, t1: Table, t2: Table, col: nat, x: real, v: string)
    requires Wide(t) && Wide(t1) && Wide(t2) && col < 7
    requires MinOnly(cfg, t, t1, col, x, v) && ColKept(t1, t2, col)
    ensures MinOnly(cfg, t, t2, col, x, v)
  {
  }

  lemma KeepMinKeeps(cfg: LegacyConfig, t: Table, icao: string, col: nat, x: real,
                     cell: Result<string, LegacyError>, n: nat)
    requires Headed(t) && |icao| == 6 && 1 <= col < 7 && KeepMin(cfg, t, icao, col, x, cell, n).Ok?
    ensures Keeps(t, KeepMin(cfg, t, icao, col, x, cell, n).value)
    ensures forall c :: 0 <= c < 7 && c != col ==> ColKept(t, KeepMin(cfg, t, icao, col, x, cell, n).value, c)
    ensures cell.Ok? ==> MinOnly(cfg, t, KeepMin(cfg, t, icao, col, x, cell, n).value, col, x, cell.value)
  {
    var stored := Get(t, icao, col, n);
    var was := Number(cfg, stored.value, n);
    if x < was.value {
      PutKeeps(t, icao, col, cell.value, n);
    }
  }

  /** Lines 154-160 touch the last-heard and the two minimum cells only, and
      each minimum only to a strictly smaller value read from the row. */
  lemma RemeasureKeeps(cfg: LegacyConfig, t: Table, row: seq<string>, n: nat, dist: real, alt: real)
    requires Headed(t) && row != [] && |row[0]| == 6 && Remeasure(cfg, t, row, n, dist, alt).Ok?
    ensures var t2 := Remeasure(cfg, t, row, n, dist, alt).value;
            && Keeps(t, t2)
            && ColKept(t, t2, CallsignCol)
            && ColKept(t, t2, LinkCol)
            && ColKept(t, t2, 2)
            && |row| > 1
            && MinOnly(cfg, t, t2, AltCol, alt, row[1])
            && MinOnly(cfg, t, t2, DistCol, dist, cfg.fmt1(dist))
  {
    var t1 := Put(t, row[0], LastHeardCol, LastHeard(row[4], row[5]), n).value;
    PutKeeps(t, row[0], LastHeardCol, LastHeard(row[4], row[5]), n);
    var t2 := KeepMin(cfg, t1, row[0], AltCol, alt, At(row, 1, n), n).value;
    KeepMinKeeps(cfg, t1, row[0], AltCol, alt, At(row, 1, n), n);
    var t3 := KeepMin(cfg, t2, row[0], DistCol, dist, Ok(cfg.fmt1(dist)), n).value;
    KeepMinKeeps(cfg, t2, row[0], DistCol, dist, Ok(cfg.fmt1(dist)), n);
    assert Remeasure(cfg, t, row, n, dist, alt).value == t3;
    KeepsTrans(t, t1, t2);
    KeepsTrans(t, t2, t3);
    ColKeptTrans(t, t1, t2, CallsignCol);
    ColKeptTrans(t, t2, t3, CallsignCol);
    ColKeptTrans(t, t1, t2, LinkCol);
    ColKeptTrans(t, t2, t3, LinkCol);
    ColKeptTrans(t, t1, t2, 2);
    ColKeptTrans(t, t2, t3, 2);
    MinOnlyThen(cfg, t, t1, t2, AltCol, alt, row[1]);
    MinOnlyBefore(cfg, t, t2, t3, AltCol, alt, row[1]);
    ColKeptTrans(t, t1, t2, DistCol);
    MinOnlyThen(cfg, t, t2, t3, DistCol, dist, cfg.fmt1(dist));
  }

  /** Lines 145-148 touch the callsign cells only, and, when the located
      callsign cell is the empty one the script tests for, no callsign that
      was set. */
  lemma BackfillKeeps(cfg: LegacyConfig, st: LState, row: seq<string>, n: nat)
    requires Headed(st.table) && row != [] && |row[0]| == 6 && Backfill(cfg, st, row, n).Ok?
    ensures var t2 := Backfill(cfg, st, row, n).value.table;
            && Keeps(st.table, t2)
            && (forall c :: 0 <= c < 7 && c != CallsignCol ==> ColKept(st.table, t2, c))
            && (Get(st.table, row[0], CallsignCol, n) == Ok("") ==>
                  forall i :: 0 <= i < |st.table| && st.table[i][CallsignCol] != "" ==>
                    t2[i][CallsignCol] == st.table[i][CallsignCol])
  {
    if Strip2(row[11]) != "" {
      PutKeeps(st.table, row[0], CallsignCol, Strip2(row[11]), n);
    }
    if Get(st.table, row[0], CallsignCol, n) == Ok("") {
      BackfillCallsign(cfg, st, row, n);
    }
  }

  lemma RelinkKeeps(cfg: LegacyConfig, st: LState, row: seq<string>, n: nat)
    requires Headed(st.table) && row != [] && |row[0]| == 6 && Relink(cfg, st, row, n).Ok?
    ensures var t2 := Relink(cfg, st, row, n).value.table;
            && Keeps(st.table, t2)
            && (forall c :: 0 <= c < 7 && c != LinkCol ==> ColKept(st.table, t2, c))
  {
    var falink := if cfg.service == Planefence.AdsbExchange then StationLink(cfg, row[0], row[4]) else st.falink;
    PutKeeps(st.table, row[0], LinkCol, Strip2(falink), n);
  }

  /** The backfill writes the callsign cell of the row the ICAO locates, and
      that cell was empty. */
  lemma BackfillCallsign(cfg: LegacyConfig, st: LState, row: seq<string>, n: nat)
    requires Headed(st.table) && row != [] && |row[0]| == 6
    requires Get(st.table, row[0], CallsignCol, n) == Ok("") && Backfill(cfg, st, row, n).Ok?
    ensures var t2 := Backfill(cfg, st, row, n).value.table;
            forall i :: 0 <= i < |st.table| && st.table[i][CallsignCol] != "" ==>
              t2[i][CallsignCol] == st.table[i][CallsignCol]
    ensures |row| > 11
    ensures var cs := Strip2(row[11]);
            var r := Backfill(cfg, st, row, n).value;
            && (cs == "" ==> r == st)
            && (cs != "" ==> && Locate(st.table, row[0]).Some?
                             && r.table[Locate(st.table, row[0]).value][CallsignCol] == cs
                             && r.falink == (if cfg.service == Planefence.FlightAware
                                             then Planefence.FaLink(row[0], cs) else st.falink))
  {
  }

  /** An in-range row of a known ICAO changes record cells only: a callsign
      that was set stays, and each minimum moves only down to the row's
      value. */
  lemma UpdateKeeps(cfg: LegacyConfig, st: LState, row: seq<string>, n: nat, dist: real, alt: real)
    requires Headed(st.table) && row != [] && |row[0]| == 6 && Update(cfg, st, row, n, dist, alt).Ok?
    ensures var t2 := Update(cfg, st, row, n, dist, alt).value.table;
            && Keeps(st.table, t2)
            && ColKept(st.table, t2, 2)
            && (forall i :: 0 <= i < |st.table| && st.table[i][CallsignCol] != "" ==>
                  t2[i][CallsignCol] == st.table[i][CallsignCol])
            && |row| > 1
            && MinOnly(cfg, st.table, t2, AltCol, alt, row[1])
            && MinOnly(cfg, st.table, t2, DistCol, dist, cfg.fmt1(dist))
  {
    var t := st.table;
    var cs := Get(t, row[0], CallsignCol, n).value;
    var st1 := if cs == "" then Backfill(cfg, st, row, n).value else st;
    if cs == "" {
      BackfillKeeps(cfg, st, row, n);
    }
    var st2 := Relink(cfg, st1, row, n).value;
    RelinkKeeps(cfg, st1, row, n);
    var t3 := Remeasure(cfg, st2.table, row, n, dist, alt).value;
    RemeasureKeeps(cfg, st2.table, row, n, dist, alt);
    assert Update(cfg, st, row, n, dist, alt).value.table == t3;
    KeepsChain(cfg, t, st1.table, st2.table, t3, alt, row[1], dist, cfg.fmt1(dist));
  }

  /** Every set callsign cell of `t` is unchanged in `t2`. */
  predicate CallsignsKept(t: Table, t2: Table)
    requires Wide(t) && Wide(t2) && |t2| == |t|
  {
    forall i :: 0 <= i < |t| && t[i][CallsignCol] != "" ==> t2[i][CallsignCol] == t[i][CallsignCol]
  }

  /** The three stages of an update, backfill, relink and remeasure, put
      together. */
  lemma KeepsChain(cfg: LegacyConfig, t: Table, t1: Table, t2: Table, t3: Table,
                   alt: real, a: string, dist: real, d: string)
    requires Wide(t) && Wide(t1) && Wide(t2) && Wide(t3)
    requires Keeps(t, t1) && Keeps(t1, t2) && Keeps(t2, t3)
    requires ColKept(t, t1, 2) && ColKept(t, t1, AltCol) && ColKept(t, t1, DistCol) && CallsignsKept(t, t1)
    requires ColKept(t1, t2, 2) && ColKept(t1, t2, AltCol) && ColKept(t1, t2, DistCol) && ColKept(t1, t2, CallsignCol)
    requires ColKept(t2, t3, 2) && ColKept(t2, t3, CallsignCol)
    requires MinOnly(cfg, t2, t3, AltCol, alt, a) && MinOnly(cfg, t2, t3, DistCol, dist, d)
    ensures Keeps(t, t3) && ColKept(t, t3, 2) && CallsignsKept(t, t3)
    ensures MinOnly(cfg, t, t3, AltCol, alt, a) && MinOnly(cfg, t, t3, DistCol, dist, d)
  {
    KeepsTrans(t, t1, t2);
    KeepsTrans(t, t2, t3);
    ColKeptTrans(t, t1, t2, 2);
    ColKeptTrans(t, t2, t3, 2);
    ColKeptTrans(t, t1, t2, AltCol);
    ColKeptTrans(t, t1, t2, DistCol);
    MinOnlyThen(cfg, t, t2, t3, AltCol, alt, a);
    MinOnlyThen(cfg, t, t2, t3, DistCol, dist, d);
  }

  /** One row keeps the invariant. */
  lemma {:induction false} LStepInv(cfg: LegacyConfig, st: LState, row: seq<string>, n: nat)
    requires Inv(st) && LStep(cfg, st, row, n).Ok?
    ensures Inv(LStep(cfg, st, row, n).value)
  {
    if row != [] && |row[0]| == 6 {
      var dist := RowDist(cfg, row);
      var alt := RowAlt(cfg, row);
      if dist <= cfg.maxDist && alt <= cfg.maxAlt {
        if Locate(st.table, row[0]).Some? {
          UpdateKeeps(cfg, st, row, n, dist, alt);
        } else {
          var r := LStep(cfg, st, row, n).value;
          assert r.table == st.table + [r.table[|r.table| - 1]];
          assert forall i :: 1 <= i < |st.table| ==> row[0] !in st.table[i];
        }
      }
    }
  }

  /** Every state the loop reaches satisfies the invariant. */
  lemma {:induction false} LFoldInv(cfg: LegacyConfig, rows: seq<seq<string>>)
    requires LFold(cfg, rows).Ok?
    ensures Inv(LFold(cfg, rows).value)
  {
    if rows != [] {
      LFoldInv(cfg, rows[..|rows| - 1]);
      LStepInv(cfg, LFold(cfg, rows[..|rows| - 1]).value, rows[|rows| - 1], |rows| - 1);
    }
  }

  /** A row whose ICAO is not six characters long, or that lies outside the
      fence, leaves the whole state as it was; unlike the current version,
      no callsign is backfilled from such a row. */
  lemma LStepSkips(cfg: LegacyConfig, st: LState, row: seq<string>, n: nat)
    requires Wide(st.table) && row != []
    requires |row[0]| != 6 || !(RowDist(cfg, row) <= cfg.maxDist && RowAlt(cfg, row) <= cfg.maxAlt)
    ensures LStep(cfg, st, row, n) == Ok(st)
  {
  }

  /** Both services' links start with `h`, so stripping leaves them
      non-empty; a flightaware link also ends in `t` and is left as it is. */
  lemma ServiceLinkNonEmpty(cfg: LegacyConfig, row: seq<string>)
    requires |row| >= 12
    ensures var fa := if cfg.service == Planefence.FlightAware then Planefence.FaLink(row[0], Strip2(row[11]))
                      else StationLink(cfg, row[0], row[4]);
            Strip2(fa) != ""
    ensures Strip2(Planefence.FaLink(row[0], Strip2(row[11]))) == Planefence.FaLink(row[0], Strip2(row[11]))
  {
    FaLinkStripped(row[0], Strip2(row[11]));
    var fa := if cfg.service == Planefence.FlightAware then Planefence.FaLink(row[0], Strip2(row[11]))
              else StationLink(cfg, row[0], row[4]);
    var p := if cfg.service == Planefence.FlightAware then Planefence.FaPrefix else Planefence.AxPrefix;
    assert fa[0] == p[0] == 'h';
    StripShape(fa, Py2Space);
    assert 'h' !in Py2Space;
  }

  /** An in-range row of an unseen ICAO appends one row, leaves the others
      alone, and counts one more aircraft; the new row's link cell is empty
      exactly when its callsign is. */
  lemma LStepCreates(cfg: LegacyConfig, st: LState, row: seq<string>, n: nat)
    requires Inv(st) && |row| >= 12 && |row[0]| == 6
    requires RowDist(cfg, row) <= cfg.maxDist && RowAlt(cfg, row) <= cfg.maxAlt
    requires forall i :: 0 <= i < |st.table| ==> row[0] !in st.table[i]
    ensures LStep(cfg, st, row, n).Ok?
    ensures var r := LStep(cfg, st, row, n).value;
            && |r.table| == |st.table| + 1
            && r.table[..|st.table|] == st.table
            && r.fltcounter == st.fltcounter + 1
            && var last := r.table[|st.table|];
               && last[0] == row[0]
               && last[CallsignCol] == Strip2(row[11])
               && last[2] == last[LastHeardCol] == row[4] + " " + Prefix(row[5], 8)
               && last[AltCol] == row[1]
               && last[DistCol] == cfg.fmt1(RowDist(cfg, row))
               && (last[LinkCol] == "" <==> Strip2(row[11]) == "")
               && last == NewRow(cfg, row, RowDist(cfg, row), r.falink)
               && r.falink == (if cfg.service == Planefence.FlightAware
                               then Planefence.FaLink(row[0], Strip2(row[11]))
                               else StationLink(cfg, row[0], row[4]))
  {
    var r := LStep(cfg, st, row, n).value;
    assert r.table[..|st.table|] == st.table;
    ServiceLinkNonEmpty(cfg, row);
  }

  /** What one more row does to a state the loop reaches: a
      callsign cell that was set keeps its value, and an altitude or
      distance cell changes only to this row's reading, when that reading is
      strictly below the stored number. */
  lemma LStepCells(cfg: LegacyConfig, st: LState, row: seq<string>, n: nat)
    requires Inv(st) && LStep(cfg, st, row, n).Ok?
    ensures var t2 := LStep(cfg, st, row, n).value.table;
            && |t2| >= |st.table|
            && (forall i :: 0 <= i < |st.table| ==> t2[i][0] == st.table[i][0] && t2[i][2] == st.table[i][2])
            && (forall i :: 0 <= i < |st.table| && st.table[i][CallsignCol] != "" ==>
                  t2[i][CallsignCol] == st.table[i][CallsignCol])
            && (forall i :: 0 <= i < |st.table| && t2[i][AltCol] != st.table[i][AltCol] ==>
                  && |row| > 1 && t2[i][AltCol] == row[1]
                  && cfg.parseFloat(st.table[i][AltCol]).Some?
                  && RowAlt(cfg, row) < cfg.parseFloat(st.table[i][AltCol]).value)
            && (forall i :: 0 <= i < |st.table| && t2[i][DistCol] != st.table[i][DistCol] ==>
                  && t2[i][DistCol] == cfg.fmt1(RowDist(cfg, row))
                  && cfg.parseFloat(st.table[i][DistCol]).Some?
                  && RowDist(cfg, row) < cfg.parseFloat(st.table[i][DistCol]).value)
  {
    if row != [] && |row[0]| == 6 {
      var dist := RowDist(cfg, row);
      var alt := RowAlt(cfg, row);
      if dist <= cfg.maxDist && alt <= cfg.maxAlt {
        if Locate(st.table, row[0]).Some? {
          UpdateKeeps(cfg, st, row, n, dist, alt);
        } else {
          var r := LStep(cfg, st, row, n).value;
          assert r.table[..|st.table|] == st.table;
          assert forall i :: 0 <= i < |st.table| ==> r.table[i] == st.table[i];
        }
      }
    }
  }

  /** With flightaware links, updating an aircraft whose callsign is set
      writes the carried `falink` into its link cell: the link of the
      aircraft created or backfilled last, whichever ICAO that was. */
  lemma FaUpdateUsesCarriedLink(cfg: LegacyConfig, st: LState, row: seq<string>, n: nat)
    requires Inv(st) && cfg.service == Planefence.FlightAware && row != [] && |row[0]| == 6
    requires RowDist(cfg, row) <= cfg.maxDist && RowAlt(cfg, row) <= cfg.maxAlt
    requires Get(st.table, row[0], CallsignCol, n).Ok? && Get(st.table, row[0], CallsignCol, n).value != ""
    requires LStep(cfg, st, row, n).Ok?
    ensures var r := LStep(cfg, st, row, n).value;
            && r.falink == st.falink
            && r.table[Locate(st.table, row[0]).value][LinkCol] == Strip2(st.falink)
  {
    var at := Locate(st.table, row[0]).value;
    var st2 := Relink(cfg, st, row, n).value;
    assert st2.table[at][LinkCol] == Strip2(st.falink);
    RemeasureKeeps(cfg, st2.table, row, n, RowDist(cfg, row), RowAlt(cfg, row));
  }

  /** The loop keeps the invariant, and the table written at the end is the
      record rows without the header: seven cells each, distinct six-character
      ICAOs in column 0, one per created aircraft. */
  lemma LRunWritten(cfg: LegacyConfig, rows: seq<seq<string>>)
    ensures LRun(cfg, rows).Written? ==>
              var out := LRun(cfg, rows).rows;
              && |out| > 0
              && Wide(out)
              && |out| == LFold(cfg, rows).value.fltcounter
              && (forall i :: 0 <= i < |out| ==> |out[i][0]| == 6)
              && (forall i, j :: 0 <= i < j < |out| ==> out[i][0] != out[j][0])
    ensures LRun(cfg, rows) == NothingWritten <==> LFold(cfg, rows).Ok? && LFold(cfg, rows).value.fltcounter == 0
  {
    if LFold(cfg, rows).Ok? {
      LFoldInv(cfg, rows);
    }
  }

  /** A write to another column of the row an ICAO's own column-0 cell
      locates leaves the lookup where it was. */
  lemma PutLocate(t: Table, icao: string, col: nat, v: string, n: nat)
    requires Wide(t) && 0 < col < 7 && Locate(t, icao).Some? && t[Locate(t, icao).value][0] == icao
    ensures Put(t, icao, col, v, n).Ok?
    ensures var t2 := Put(t, icao, col, v, n).value;
            var at := Locate(t, icao).value;
            && Locate(t2, icao) == Some(at)
            && t2[at][col] == v
            && forall c :: 0 <= c < 7 && c != col ==> t2[at][c] == t[at][c]
  {
    var at := Locate(t, icao).value;
    var t2 := Put(t, icao, col, v, n).value;
    assert icao in t2[at];
    assert forall j :: 0 <= j < at ==> t2[j] == t[j];
  }

  lemma KeepMinLocate(cfg: LegacyConfig, t: Table, icao: string, col: nat, x: real,
                      cell: Result<string, LegacyError>, n: nat)
    requires Wide(t) && 0 < col < 7 && Locate(t, icao).Some? && t[Locate(t, icao).value][0] == icao
    requires cfg.parseFloat(t[Locate(t, icao).value][col]).Some? && cell.Ok?
    ensures KeepMin(cfg, t, icao, col, x, cell, n).Ok?
    ensures var t2 := KeepMin(cfg, t, icao, col, x, cell, n).value;
            var at := Locate(t, icao).value;
            && Locate(t2, icao) == Some(at)
            && forall c :: 0 <= c < 7 && c != col ==> t2[at][c] == t[at][c]
  {
    if x < cfg.parseFloat(t[Locate(t, icao).value][col]).value {
      PutLocate(t, icao, col, cell.value, n);
    }
  }

  /** A flightaware link has no surrounding whitespace to strip. */
  lemma FaLinkStripped(icao: string, callsign: string)
    ensures Strip2(Planefence.FaLink(icao, callsign)) == Planefence.FaLink(icao, callsign)
    ensures |Planefence.FaLink(icao, callsign)| == |Planefence.FaPrefix| + |icao| + 16 + |callsign|
  {
    var l := Planefence.FaLink(icao, callsign);
    assert l == Planefence.FaPrefix + (Lower(icao) + "/ident/" + callsign) + "/redirect";
    assert l[0] == 'h' && l[|l| - 1] == 't';
    StripUnchanged(l, Py2Space);
  }

  /** An update of an aircraft whose row carries its ICAO in column 0
      succeeds when the stored altitude and distance parse, whether or not
      its callsign is set. */
  lemma UpdateOk(cfg: LegacyConfig, st: LState, row: seq<string>, n: nat, dist: real, alt: real)
    requires Wide(st.table) && |row| >= 12 && Locate(st.table, row[0]).Some?
    requires var at := Locate(st.table, row[0]).value;
             && st.table[at][0] == row[0]
             && cfg.parseFloat(st.table[at][AltCol]).Some? && cfg.parseFloat(st.table[at][DistCol]).Some?
    ensures Update(cfg, st, row, n, dist, alt).Ok?
  {
    var at := Locate(st.table, row[0]).value;
    var st1 := st;
    if st.table[at][CallsignCol] == "" {
      BackfillAt(cfg, st, row, n, at, 0);
      st1 := Backfill(cfg, st, row, n).value;
    }
    assert Locate(st1.table, row[0]) == Some(at) && st1.table[at][0] == row[0];
    RelinkAt(cfg, st1, row, n, at, 0);
    var st2 := Relink(cfg, st1, row, n).value;
    assert st2.table[at][AltCol] == st.table[at][AltCol] && st2.table[at][DistCol] == st.table[at][DistCol];
    RemeasureOk(cfg, st2.table, row, n, dist, alt);
  }

  lemma RemeasureOk(cfg: LegacyConfig, t: Table, row: seq<string>, n: nat, dist: real, alt: real)
    requires Wide(t) && |row| >= 12 && Locate(t, row[0]).Some?
    requires var at := Locate(t, row[0]).value;
             && t[at][0] == row[0]
             && cfg.parseFloat(t[at][AltCol]).Some? && cfg.parseFloat(t[at][DistCol]).Some?
    ensures Remeasure(cfg, t, row, n, dist, alt).Ok?
  {
    var icao := row[0];
    PutLocate(t, icao, LastHeardCol, LastHeard(row[4], row[5]), n);
    var t2 := Put(t, icao, LastHeardCol, LastHeard(row[4], row[5]), n).value;
    KeepMinLocate(cfg, t2, icao, AltCol, alt, At(row, 1, n), n);
    var t3 := KeepMin(cfg, t2, icao, AltCol, alt, At(row, 1, n), n).value;
    KeepMinLocate(cfg, t3, icao, DistCol, dist, Ok(cfg.fmt1(dist)), n);
  }

  /** Folding one more row is one more step from the folded state. */
  lemma LFoldSnoc(cfg: LegacyConfig, rows: seq<seq<string>>, row: seq<string>, st: LState)
    requires LFold(cfg, rows) == Ok(st)
    ensures LFold(cfg, rows + [row]) == LStep(cfg, st, row, |rows|)
  {
    var rs := rows + [row];
    assert rs[..|rs| - 1] == rows;
    assert rs[|rs| - 1] == row;
    LFoldLast(cfg, rs, st);
  }

  /** The last row of a non-empty list is one step from the fold of the
      others. */
  lemma LFoldLast(cfg: LegacyConfig, rs: seq<seq<string>>, st: LState)
    requires rs != [] && LFold(cfg, rs[..|rs| - 1]) == Ok(st)
    ensures LFold(cfg, rs) == LStep(cfg, st, rs[|rs| - 1], |rs| - 1)
  {
  }

  /** The first row of the example below: A, with a callsign, is created
      in the empty table. */
  lemma StaleFirst(cfg: LegacyConfig, a: seq<string>)
    requires cfg.service == Planefence.FlightAware
    requires |a| >= 12 && |a[0]| == 6 && RowDist(cfg, a) <= cfg.maxDist && RowAlt(cfg, a) <= cfg.maxAlt
    ensures var r := LStep(cfg, Init, a, 0);
            && r.Ok? && Inv(r.value) && |r.value.table| == 2
            && r.value.table[1] == NewRow(cfg, a, RowDist(cfg, a), Planefence.FaLink(a[0], Strip2(a[11])))
  {
    assert Inv(Init);
    assert a[0] !in Header;
    LStepCreates(cfg, Init, a, 0);
    LStepInv(cfg, Init, a, 0);
  }

  /** The second row: B, without a callsign and found in no cell, is
      created and leaves its own link in `falink`. */
  lemma StaleSecond(cfg: LegacyConfig, st: LState, b: seq<string>)
    requires cfg.service == Planefence.FlightAware && Inv(st) && |st.table| == 2
    requires |b| >= 12 && |b[0]| == 6 && RowDist(cfg, b) <= cfg.maxDist && RowAlt(cfg, b) <= cfg.maxAlt
    requires Strip2(b[11]) == "" && b[0] !in st.table[1]
    ensures var r := LStep(cfg, st, b, 1);
            && r.Ok? && Inv(r.value) && |r.value.table| == 3
            && r.value.table[1] == st.table[1] && r.value.falink == Planefence.FaLink(b[0], "")
            && r.value.table[2][0] == b[0] && r.value.table[2][CallsignCol] == ""
            && r.value.table[2][LinkCol] == ""
  {
    assert b[0] !in Header;
    LStepCreates(cfg, st, b, 1);
    LStepInv(cfg, st, b, 1);
    var r := LStep(cfg, st, b, 1).value;
    assert r.table[..2][1] == r.table[1];
  }

  /** The third row of the example below: A, whose row carries its
      callsign, is heard again and takes the carried link. */
  lemma StaleUpdate(cfg: LegacyConfig, st: LState, a: seq<string>)
    requires cfg.service == Planefence.FlightAware && Inv(st) && |st.table| >= 2
    requires |a| >= 12 && |a[0]| == 6 && RowDist(cfg, a) <= cfg.maxDist && RowAlt(cfg, a) <= cfg.maxAlt
    requires st.table[1][0] == a[0] && st.table[1][CallsignCol] != ""
    requires cfg.parseFloat(st.table[1][AltCol]).Some? && cfg.parseFloat(st.table[1][DistCol]).Some?
    ensures var r := LStep(cfg, st, a, 2);
            && r.Ok? && |r.value.table| == |st.table|
            && r.value.table[1][0] == a[0] && r.value.table[1][LinkCol] == Strip2(st.falink)
  {
    HeaderNeverMatched(st.table, a[0]);
    assert Locate(st.table, a[0]) == Some(1);
    UpdateOk(cfg, st, a, 2, RowDist(cfg, a), RowAlt(cfg, a));
    FaUpdateUsesCarriedLink(cfg, st, a, 2);
    UpdateKeeps(cfg, st, a, 2, RowDist(cfg, a), RowAlt(cfg, a));
  }

  /** With flightaware links: aircraft A with a callsign is created, then
      aircraft B without one, then A is heard again. A's link cell ends up
      holding the link built for B. */
  lemma StaleFlightawareLink(cfg: LegacyConfig, a: seq<string>, b: seq<string>)
    requires cfg.service == Planefence.FlightAware
    requires |a| >= 12 && |b| >= 12 && |a[0]| == 6 && |b[0]| == 6
    requires RowDist(cfg, a) <= cfg.maxDist && RowAlt(cfg, a) <= cfg.maxAlt
    requires RowDist(cfg, b) <= cfg.maxDist && RowAlt(cfg, b) <= cfg.maxAlt
    requires Strip2(a[11]) != "" && Strip2(b[11]) == ""
    requires b[0] !in NewRow(cfg, a, RowDist(cfg, a), Planefence.FaLink(a[0], Strip2(a[11])))
    requires cfg.parseFloat(a[1]).Some? && cfg.parseFloat(cfg.fmt1(RowDist(cfg, a))).Some?
    ensures var s1 := LStep(cfg, Init, a, 0);
            && s1.Ok? && var s2 := LStep(cfg, s1.value, b, 1);
            && s2.Ok? && var r := LStep(cfg, s2.value, a, 2);
            && r.Ok? && |r.value.table| == 3 && r.value.table[1][0] == a[0]
            && r.value.table[1][LinkCol] == Planefence.FaLink(b[0], "")
            && r.value.table[1][LinkCol] != Planefence.FaLink(a[0], Strip2(a[11]))
  {
    StaleFirst(cfg, a);
    var s1 := LStep(cfg, Init, a, 0).value;
    StaleSecond(cfg, s1, b);
    var s2 := LStep(cfg, s1, b, 1).value;
    StaleUpdate(cfg, s2, a);
    FaLinkStripped(b[0], "");
    FaLinkStripped(a[0], Strip2(a[11]));
  }

  // ---------------------------------------------------------------------------
  // The values the update path writes

  /** Lines 156-157 and 159-160: the stored minimum gives way to `v` exactly
      when the row's reading `x` is strictly below the stored number. */
  function Lowered(cfg: LegacyConfig, stored: string, x: real, v: string): string
    requires cfg.parseFloat(stored).Some?
  {
    if x < cfg.parseFloat(stored).value then v else stored
  }

  /** A cell write through the lookup, when another cell `c0` of the located
      row `at` holds the ICAO: exactly that one cell of that row changes, and
      the lookup still finds row `at` afterwards. */
  lemma PutAt(t: Table, icao: string, col: nat, v: string, n: nat, at: nat, c0: nat)
    requires Wide(t) && col < 7 && Locate(t, icao) == Some(at)
    requires c0 < 7 && c0 != col && t[at][c0] == icao
    ensures Put(t, icao, col, v, n) == Ok(t[at := t[at][col := v]])
    ensures Locate(t[at := t[at][col := v]], icao) == Some(at)
  {
    var t2 := t[at := t[at][col := v]];
    assert t2[at][c0] == icao;
    assert icao in t2[at];
    assert forall j :: 0 <= j < at ==> t2[j] == t[j];
  }

  /** The minimum update on such a row writes the row's value exactly when
      it is below the stored number, and touches nothing else. */
  lemma KeepMinAt(cfg: LegacyConfig, t: Table, icao: string, col: nat, x: real,
                  cell: Result<string, LegacyError>, n: nat, at: nat, c0: nat)
    requires Wide(t) && col < 7 && Locate(t, icao) == Some(at)
    requires c0 < 7 && c0 != col && t[at][c0] == icao
    requires cfg.parseFloat(t[at][col]).Some? && cell.Ok?
    ensures var v := Lowered(cfg, t[at][col], x, cell.value);
            && KeepMin(cfg, t, icao, col, x, cell, n) == Ok(t[at := t[at][col := v]])
            && Locate(t[at := t[at][col := v]], icao) == Some(at)
  {
    PutAt(t, icao, col, cell.value, n, at, c0);
    PutAt(t, icao, col, t[at][col], n, at, c0);
    assert t[at][col := t[at][col]] == t[at];
    assert t[at := t[at]] == t;
  }

  /** Lines 154-160 on such a row: last-heard becomes the row's date and
      time, and each minimum is lowered to the row's value when that is
      below it; nothing else in the table changes. */
  lemma RemeasureAt(cfg: LegacyConfig, t: Table, row: seq<string>, n: nat, dist: real, alt: real, at: nat, c0: nat)
    requires Wide(t) && |row| >= 12 && Locate(t, row[0]) == Some(at)
    requires c0 < 3 && t[at][c0] == row[0]
    requires cfg.parseFloat(t[at][AltCol]).Some? && cfg.parseFloat(t[at][DistCol]).Some?
    ensures Remeasure(cfg, t, row, n, dist, alt)
            == Ok(t[at := t[at][LastHeardCol := LastHeard(row[4], row[5])]
                              [AltCol := Lowered(cfg, t[at][AltCol], alt, row[1])]
                              [DistCol := Lowered(cfg, t[at][DistCol], dist, cfg.fmt1(dist))]])
  {
    var icao := row[0];
    var h := LastHeard(row[4], row[5]);
    var a := Lowered(cfg, t[at][AltCol], alt, row[1]);
    var d := Lowered(cfg, t[at][DistCol], dist, cfg.fmt1(dist));
    PutAt(t, icao, LastHeardCol, h, n, at, c0);
    var t1 := t[at := t[at][LastHeardCol := h]];
    KeepMinAt(cfg, t1, icao, AltCol, alt, At(row, 1, n), n, at, c0);
    var t2 := t1[at := t1[at][AltCol := a]];
    KeepMinAt(cfg, t2, icao, DistCol, dist, Ok(cfg.fmt1(dist)), n, at, c0);
    RemeasureThrough(cfg, t, row, n, dist, alt, t1, t2, t2[at := t2[at][DistCol := d]]);
    RewriteTwice(t, at, t[at][LastHeardCol := h], t[at][LastHeardCol := h][AltCol := a]);
    RewriteTwice(t, at, t[at][LastHeardCol := h][AltCol := a], t[at][LastHeardCol := h][AltCol := a][DistCol := d]);
  }

  /** Remeasure, taken stage by stage. */
  lemma RemeasureThrough(cfg: LegacyConfig, t: Table, row: seq<string>, n: nat, dist: real, alt: real,
                         t1: Table, t2: Table, t3: Table)
    requires Wide(t) && |row| >= 12
    requires Put(t, row[0], LastHeardCol, LastHeard(row[4], row[5]), n) == Ok(t1) && Wide(t1)
    requires KeepMin(cfg, t1, row[0], AltCol, alt, At(row, 1, n), n) == Ok(t2) && Wide(t2)
    requires KeepMin(cfg, t2, row[0], DistCol, dist, Ok(cfg.fmt1(dist)), n) == Ok(t3)
    ensures Remeasure(cfg, t, row, n, dist, alt) == Ok(t3)
  {
  }

  /** Lines 145-148 on such a row: an empty callsign cell takes the row's
      stripped callsign when there is one, and with flightaware links
      `falink` is rebuilt from it; otherwise nothing changes. */
  lemma BackfillAt(cfg: LegacyConfig, st: LState, row: seq<string>, n: nat, at: nat, c0: nat)
    requires Wide(st.table) && |row| >= 12 && Locate(st.table, row[0]) == Some(at)
    requires c0 < 7 && c0 != CallsignCol && st.table[at][c0] == row[0]
    ensures var cs := Strip2(row[11]);
            Backfill(cfg, st, row, n)
            == Ok(if cs == "" then st
                  else LState(st.table[at := st.table[at][CallsignCol := cs]],
                              if cfg.service == Planefence.FlightAware then Planefence.FaLink(row[0], cs) else st.falink,
                              st.fltcounter))
    ensures Locate(st.table[at := st.table[at][CallsignCol := Strip2(row[11])]], row[0]) == Some(at)
  {
    PutAt(st.table, row[0], CallsignCol, Strip2(row[11]), n, at, c0);
  }

  /** Lines 149-152 on such a row: with adsbexchange `falink` becomes the
      station link of this row's date, otherwise it is the carried one; the
      link cell takes it stripped. */
  lemma RelinkAt(cfg: LegacyConfig, st: LState, row: seq<string>, n: nat, at: nat, c0: nat)
    requires Wide(st.table) && |row| >= 12 && Locate(st.table, row[0]) == Some(at)
    requires c0 < 7 && c0 != LinkCol && st.table[at][c0] == row[0]
    ensures var fl := if cfg.service == Planefence.AdsbExchange then StationLink(cfg, row[0], row[4]) else st.falink;
            && Relink(cfg, st, row, n)
               == Ok(LState(st.table[at := st.table[at][LinkCol := Strip2(fl)]], fl, st.fltcounter))
            && Locate(st.table[at := st.table[at][LinkCol := Strip2(fl)]], row[0]) == Some(at)
  {
    var fl := if cfg.service == Planefence.AdsbExchange then StationLink(cfg, row[0], row[4]) else st.falink;
    PutAt(st.table, row[0], LinkCol, Strip2(fl), n, at, c0);
  }

  /** Lines 143-148 on such a row: the callsign is read from the located
      row, and an empty one is backfilled. */
  lemma CallsignStepAt(cfg: LegacyConfig, st: LState, row: seq<string>, n: nat, at: nat, c0: nat)
    requires Wide(st.table) && |row| >= 12 && |row[0]| == 6 && Locate(st.table, row[0]) == Some(at)
    requires c0 < 3 && st.table[at][c0] == row[0]
    ensures var was := st.table[at];
            var named := was[CallsignCol] == "" && Strip2(row[11]) != "";
            var st1 := LState(st.table[at := was[CallsignCol := if named then Strip2(row[11]) else was[CallsignCol]]],
                              if named && cfg.service == Planefence.FlightAware
                              then Planefence.FaLink(row[0], Strip2(row[11])) else st.falink,
                              st.fltcounter);
            && Get(st.table, row[0], CallsignCol, n) == Ok(was[CallsignCol])
            && (if was[CallsignCol] == "" then Backfill(cfg, st, row, n) else Ok(st)) == Ok(st1)
            && Wide(st1.table) && Locate(st1.table, row[0]) == Some(at) && st1.table[at][c0] == row[0]
  {
    var was := st.table[at];
    if was[CallsignCol] == "" {
      BackfillAt(cfg, st, row, n, at, c0);
    }
    assert was[CallsignCol := was[CallsignCol]] == was;
    assert st.table[at := was] == st.table;
  }

  /** A second write to the same row replaces the first. */
  lemma RewriteTwice(t: Table, at: nat, u: seq<string>, v: seq<string>)
    requires at < |t|
    ensures t[at := u][at := v] == t[at := v]
  {
  }

  /** Update, taken stage by stage. */
  lemma UpdateThrough(cfg: LegacyConfig, st: LState, row: seq<string>, n: nat, dist: real, alt: real,
                      st1: LState, st2: LState, t3: Table)
    requires Wide(st.table) && row != [] && Get(st.table, row[0], CallsignCol, n).Ok?
    requires (if Get(st.table, row[0], CallsignCol, n).value == "" then Backfill(cfg, st, row, n) else Ok(st)) == Ok(st1)
    requires Wide(st1.table) && Relink(cfg, st1, row, n) == Ok(st2)
    requires Wide(st2.table) && Remeasure(cfg, st2.table, row, n, dist, alt) == Ok(t3)
    ensures Update(cfg, st, row, n, dist, alt) == Ok(st2.(table := t3))
  {
  }

  /** The three writes of lines 152-160 after the callsign one, gathered into
      the one row they leave. */
  lemma RowRewrite(w: seq<string>, c: string, l: string, h: string, a: string, d: string)
    requires |w| == 7
    ensures w[CallsignCol := c][LinkCol := l][LastHeardCol := h][AltCol := a][DistCol := d]
            == [w[0], c, w[2], h, a, d, l]
  {
  }

  /** The state lines 143-160 leave behind when the located row `at` is
      rewritten: an empty callsign takes the row's stripped callsign, the
      link cell takes the (possibly carried) link, last-heard takes the row's
      date and time, and each minimum is lowered to the row's value when that
      is below it; every other row stays as it was. */
  function Heard(cfg: LegacyConfig, st: LState, row: seq<string>, dist: real, alt: real, at: nat): (r: LState)
    requires Wide(st.table) && |row| >= 12 && at < |st.table|
    requires cfg.parseFloat(st.table[at][AltCol]).Some? && cfg.parseFloat(st.table[at][DistCol]).Some?
    ensures Wide(r.table) && |r.table| == |st.table| && r.fltcounter == st.fltcounter
    ensures r.table[at][LastHeardCol] == LastHeard(row[4], row[5])
    ensures forall i :: 0 <= i < |st.table| && i != at ==> r.table[i] == st.table[i]
  {
    var was := st.table[at];
    var named := was[CallsignCol] == "" && Strip2(row[11]) != "";
    var fl := if cfg.service == Planefence.AdsbExchange then StationLink(cfg, row[0], row[4])
              else if named then Planefence.FaLink(row[0], Strip2(row[11])) else st.falink;
    LState(st.table[at := [was[0], if named then Strip2(row[11]) else was[CallsignCol], was[2],
                           LastHeard(row[4], row[5]),
                           Lowered(cfg, was[AltCol], alt, row[1]),
                           Lowered(cfg, was[DistCol], dist, cfg.fmt1(dist)),
                           Strip2(fl)]],
           fl, st.fltcounter)
  }

  /** Lines 143-160: an in-range row of an aircraft whose located row holds
      the ICAO in one of its first three cells leaves exactly `Heard`. */
  lemma UpdateCells(cfg: LegacyConfig, st: LState, row: seq<string>, n: nat, dist: real, alt: real, at: nat)
    requires Wide(st.table) && |row| >= 12 && |row[0]| == 6 && Locate(st.table, row[0]) == Some(at)
    requires row[0] in st.table[at][..3]
    requires cfg.parseFloat(st.table[at][AltCol]).Some? && cfg.parseFloat(st.table[at][DistCol]).Some?
    ensures Update(cfg, st, row, n, dist, alt) == Ok(Heard(cfg, st, row, dist, alt, at))
  {
    var t := st.table;
    var was := t[at];
    var c0 :| 0 <= c0 < 3 && t[at][..3][c0] == row[0];
    CallsignStepAt(cfg, st, row, n, at, c0);
    var named := was[CallsignCol] == "" && Strip2(row[11]) != "";
    var cs := if named then Strip2(row[11]) else was[CallsignCol];
    var st1 := LState(t[at := was[CallsignCol := cs]],
                      if named && cfg.service == Planefence.FlightAware
                      then Planefence.FaLink(row[0], Strip2(row[11])) else st.falink,
                      st.fltcounter);
    RelinkAt(cfg, st1, row, n, at, c0);
    var fl := if cfg.service == Planefence.AdsbExchange then StationLink(cfg, row[0], row[4]) else st1.falink;
    var w1 := was[CallsignCol := cs][LinkCol := Strip2(fl)];
    RewriteTwice(t, at, was[CallsignCol := cs], w1);
    var t2 := t[at := w1];
    RemeasureAt(cfg, t2, row, n, dist, alt, at, c0);
    var h := LastHeard(row[4], row[5]);
    var a := Lowered(cfg, was[AltCol], alt, row[1]);
    var d := Lowered(cfg, was[DistCol], dist, cfg.fmt1(dist));
    RowRewrite(was, cs, Strip2(fl), h, a, d);
    var nw := [was[0], cs, was[2], h, a, d, Strip2(fl)];
    RewriteTwice(t, at, w1, nw);
    assert Remeasure(cfg, t2, row, n, dist, alt) == Ok(t[at := nw]);
    UpdateThrough(cfg, st, row, n, dist, alt, st1, LState(t2, fl, st.fltcounter), t[at := nw]);
    assert Heard(cfg, st, row, dist, alt, at) == LState(t[at := nw], fl, st.fltcounter);
  }

  /** The lookup matches a cell in any column. When an earlier row's callsign
      cell equals a later aircraft's ICAO, that aircraft's update lands on the
      earlier row, and the aircraft's own row is left as it was. */
  lemma UpdateHitsCallsignCell(cfg: LegacyConfig, st: LState, row: seq<string>, n: nat, dist: real, alt: real,
                               a: nat, b: nat)
    requires Wide(st.table) && |row| >= 12 && |row[0]| == 6
    requires a < b < |st.table| && st.table[a][CallsignCol] == row[0] && st.table[b][0] == row[0]
    requires forall i :: 0 <= i < a ==> row[0] !in st.table[i]
    requires cfg.parseFloat(st.table[a][AltCol]).Some? && cfg.parseFloat(st.table[a][DistCol]).Some?
    ensures Locate(st.table, row[0]) == Some(a)
    ensures Update(cfg, st, row, n, dist, alt).Ok?
    ensures var t2 := Update(cfg, st, row, n, dist, alt).value.table;
            t2[a][LastHeardCol] == LastHeard(row[4], row[5]) && t2[b] == st.table[b]
  {
    assert row[0] in st.table[a];
    assert st.table[a][..3][CallsignCol] == row[0];
    assert Locate(st.table, row[0]) == Some(a);
    UpdateCells(cfg, st, row, n, dist, alt, a);
  }
}
