/** What the fold of the Python 3 aggregator computes, stated per ICAO
    against the sighting stream itself rather than step by step: which
    records exist, in what order, and what each of their columns holds. */
module PlanefenceProps {
  import opened Wrappers
  import opened PyStr
  import opened Planefence

  /** Sighting `i` is an in-fence sighting of `k`. */
  predicate Hit(cfg: Config, ss: seq<Sighting>, i: int, k: string) {
    0 <= i < |ss| && ss[i].icao == k && InFence(cfg, ss[i])
  }

  /** The ICAOs of the in-fence sightings, in arrival order, repeats kept. */
  function FenceIcaos(cfg: Config, ss: seq<Sighting>): seq<string> {
    if ss == [] then []
    else
      FenceIcaos(cfg, ss[..|ss| - 1])
      + (if InFence(cfg, ss[|ss| - 1]) then [ss[|ss| - 1].icao] else [])
  }

  /** The first occurrence of each element, in order. */
  function Dedup(xs: seq<string>): seq<string> {
    if xs == [] then []
    else if xs[|xs| - 1] in xs[..|xs| - 1] then Dedup(xs[..|xs| - 1])
    else Dedup(xs[..|xs| - 1]) + [xs[|xs| - 1]]
  }

  lemma {:induction false} DedupSpec(xs: seq<string>)
    ensures NoDup(Dedup(xs))
    ensures forall x :: x in Dedup(xs) <==> x in xs
  {
    if xs != [] {
      var front := xs[..|xs| - 1];
      DedupSpec(front);
      assert xs == front + [xs[|xs| - 1]];
    }
  }

  lemma {:induction false} FenceIcaosSpec(cfg: Config, ss: seq<Sighting>)
    ensures forall k :: k in FenceIcaos(cfg, ss) <==> exists i :: Hit(cfg, ss, i, k)
  {
    if ss != [] {
      var front := ss[..|ss| - 1];
      FenceIcaosSpec(cfg, front);
      forall k
        ensures k in FenceIcaos(cfg, ss) <==> exists i :: Hit(cfg, ss, i, k)
      {
        var last := |ss| - 1;
        assert FenceIcaos(cfg, ss) == FenceIcaos(cfg, front)
          + (if InFence(cfg, ss[last]) then [ss[last].icao] else []);
        if k in FenceIcaos(cfg, front) {
          var i :| Hit(cfg, front, i, k);
          assert Hit(cfg, ss, i, k);
        } else if k in FenceIcaos(cfg, ss) {
          assert Hit(cfg, ss, last, k);
        }
        if exists i :: Hit(cfg, ss, i, k) {
          var i :| Hit(cfg, ss, i, k);
          if i < |ss| - 1 {
            assert Hit(cfg, front, i, k);
          }
        }
      }
    }
  }

  /** Records are emitted in the order of each ICAO's first in-fence
      sighting. */
  lemma {:induction false} FoldOrder(cfg: Config, link: Linker, ss: seq<Sighting>)
    ensures Fold(cfg, link, ss).order == Dedup(FenceIcaos(cfg, ss))
  {
    if ss != [] {
      var front := ss[..|ss| - 1];
      var s := ss[|ss| - 1];
      var t := Fold(cfg, link, front);
      FoldOrder(cfg, link, front);
      DedupSpec(FenceIcaos(cfg, front));
      StepKeys(cfg, link, t, s);
      var xs := FenceIcaos(cfg, ss);
      assert Fold(cfg, link, ss) == Step(cfg, link, t, s);
      if InFence(cfg, s) {
        assert xs == FenceIcaos(cfg, front) + [s.icao];
        assert xs[..|xs| - 1] == FenceIcaos(cfg, front) && xs[|xs| - 1] == s.icao;
        assert s.icao in t.tracks <==> s.icao in t.order;
      } else {
        assert xs == FenceIcaos(cfg, front);
      }
    }
  }

  /** A record exists exactly for the ICAOs with at least one in-fence
      sighting: out-of-fence sightings never create one. */
  lemma FoldKeys(cfg: Config, link: Linker, ss: seq<Sighting>, k: string)
    ensures k in Fold(cfg, link, ss).tracks <==> exists i :: Hit(cfg, ss, i, k)
  {
    FoldOrder(cfg, link, ss);
    DedupSpec(FenceIcaos(cfg, ss));
    FenceIcaosSpec(cfg, ss);
  }

  /** The emitted row count is the number of distinct in-fence ICAOs. */
  lemma FoldCount(cfg: Config, link: Linker, ss: seq<Sighting>)
    ensures |Fold(cfg, link, ss).order| == |Dedup(FenceIcaos(cfg, ss))|
    ensures |Fold(cfg, link, ss).order| > 0 <==> exists i :: 0 <= i < |ss| && InFence(cfg, ss[i])
  {
    FoldOrder(cfg, link, ss);
    DedupSpec(FenceIcaos(cfg, ss));
    FenceIcaosSpec(cfg, ss);
    var t := Fold(cfg, link, ss);
    if exists i :: 0 <= i < |ss| && InFence(cfg, ss[i]) {
      var i :| 0 <= i < |ss| && InFence(cfg, ss[i]);
      assert Hit(cfg, ss, i, ss[i].icao);
      assert ss[i].icao in t.order;
    }
    if |t.order| > 0 {
      assert t.order[0] in FenceIcaos(cfg, ss);
    }
  }

  /** Sighting `i` is a sighting of `k`, in the fence or not, that carries a
      callsign. */
  predicate Named(ss: seq<Sighting>, i: int, k: string) {
    0 <= i < |ss| && ss[i].icao == k && ss[i].callsign != ""
  }

  /** One step, seen from a single ICAO `k` that the sighting is not an
      in-fence sighting of: everything but the callsign stays. */
  lemma StepElsewhere(cfg: Config, link: Linker, t: TableView, s: Sighting, k: string)
    requires TableOk(t) && k in t.tracks && !(s.icao == k && InFence(cfg, s))
    ensures var r := Step(cfg, link, t, s);
            k in r.tracks && r.tracks[k] == t.tracks[k].(callsign := r.tracks[k].callsign)
            && (s.icao != k ==> r.tracks[k] == t.tracks[k])
  {
    StepKeys(cfg, link, t, s);
    if s.icao == k {
      StepOutOfFence(cfg, link, t, s);
    }
  }

  /** One more sighting keeps `after` the smallest altitude over the hits of
      `k`, given that `before` was that over the earlier sightings. */
  lemma MinAltExtend(cfg: Config, front: seq<Sighting>, s: Sighting, k: string, before: int, after: int)
    requires (forall i :: Hit(cfg, front, i, k) ==> before <= front[i].alt)
             && (exists i :: Hit(cfg, front, i, k) && before == front[i].alt)
    requires s.icao == k && InFence(cfg, s) ==>
               after <= before && after <= s.alt && (after == before || after == s.alt)
    requires !(s.icao == k && InFence(cfg, s)) ==> after == before
    ensures var ss := front + [s];
            && (forall i :: Hit(cfg, ss, i, k) ==> after <= ss[i].alt)
            && (exists i :: Hit(cfg, ss, i, k) && after == ss[i].alt)
  {
    var ss := front + [s];
    var w :| Hit(cfg, front, w, k) && before == front[w].alt;
    assert Hit(cfg, ss, w, k);
    if after != before {
      assert Hit(cfg, ss, |front|, k);
    }
    forall i | Hit(cfg, ss, i, k) && i < |front|
      ensures after <= ss[i].alt
    {
      assert Hit(cfg, front, i, k);
    }
  }

  /** The same for distances. */
  lemma MinDistExtend(cfg: Config, front: seq<Sighting>, s: Sighting, k: string, before: real, after: real)
    requires (forall i :: Hit(cfg, front, i, k) ==> before <= front[i].dist)
             && (exists i :: Hit(cfg, front, i, k) && before == front[i].dist)
    requires s.icao == k && InFence(cfg, s) ==>
               after <= before && after <= s.dist && (after == before || after == s.dist)
    requires !(s.icao == k && InFence(cfg, s)) ==> after == before
    ensures var ss := front + [s];
            && (forall i :: Hit(cfg, ss, i, k) ==> after <= ss[i].dist)
            && (exists i :: Hit(cfg, ss, i, k) && after == ss[i].dist)
  {
    var ss := front + [s];
    var w :| Hit(cfg, front, w, k) && before == front[w].dist;
    assert Hit(cfg, ss, w, k);
    if after != before {
      assert Hit(cfg, ss, |front|, k);
    }
    forall i | Hit(cfg, ss, i, k) && i < |front|
      ensures after <= ss[i].dist
    {
      assert Hit(cfg, front, i, k);
    }
  }

  /** The minimum altitude is the smallest altitude over the record's
      in-fence sightings: below or equal to each, and equal to one. */
  lemma {:induction false} FoldMinAlt(cfg: Config, link: Linker, ss: seq<Sighting>, k: string)
    requires k in Fold(cfg, link, ss).tracks
    ensures var m := Fold(cfg, link, ss).tracks[k].minAlt;
            && (forall i :: Hit(cfg, ss, i, k) ==> m <= ss[i].alt)
            && (exists i :: Hit(cfg, ss, i, k) && m == ss[i].alt)
  {
    var last := |ss| - 1;
    var front := ss[..last];
    var s := ss[last];
    var t := Fold(cfg, link, front);
    assert Fold(cfg, link, ss) == Step(cfg, link, t, s);
    StepKeys(cfg, link, t, s);
    if k !in t.tracks {
      NewRecord(cfg, link, ss, k);
      StepInFence(cfg, link, t, s);
      assert Hit(cfg, ss, last, k);
    } else {
      FoldMinAlt(cfg, link, front, k);
      StepMinima(cfg, link, t, s);
      if !(s.icao == k && InFence(cfg, s)) {
        StepElsewhere(cfg, link, t, s, k);
      }
      assert ss == front + [s];
      MinAltExtend(cfg, front, s, k, t.tracks[k].minAlt, Fold(cfg, link, ss).tracks[k].minAlt);
    }
  }

  /** The minimum distance is the smallest distance over the record's
      in-fence sightings: below or equal to each, and equal to one. */
  lemma {:induction false} FoldMinDist(cfg: Config, link: Linker, ss: seq<Sighting>, k: string)
    requires k in Fold(cfg, link, ss).tracks
    ensures var m := Fold(cfg, link, ss).tracks[k].minDist;
            && (forall i :: Hit(cfg, ss, i, k) ==> m <= ss[i].dist)
            && (exists i :: Hit(cfg, ss, i, k) && m == ss[i].dist)
  {
    var last := |ss| - 1;
    var front := ss[..last];
    var s := ss[last];
    var t := Fold(cfg, link, front);
    assert Fold(cfg, link, ss) == Step(cfg, link, t, s);
    StepKeys(cfg, link, t, s);
    if k !in t.tracks {
      NewRecord(cfg, link, ss, k);
      StepInFence(cfg, link, t, s);
      assert Hit(cfg, ss, last, k);
    } else {
      FoldMinDist(cfg, link, front, k);
      StepMinima(cfg, link, t, s);
      if !(s.icao == k && InFence(cfg, s)) {
        StepElsewhere(cfg, link, t, s, k);
      }
      assert ss == front + [s];
      MinDistExtend(cfg, front, s, k, t.tracks[k].minDist, Fold(cfg, link, ss).tracks[k].minDist);
    }
  }

  /** When the last sighting created the record of `k`, it is the only
      in-fence sighting of `k`. */
  lemma NewRecord(cfg: Config, link: Linker, ss: seq<Sighting>, k: string)
    requires ss != [] && k !in Fold(cfg, link, ss[..|ss| - 1]).tracks
    ensures forall i :: Hit(cfg, ss, i, k) ==> i == |ss| - 1
  {
    var front := ss[..|ss| - 1];
    FoldKeys(cfg, link, front, k);
    forall i | Hit(cfg, ss, i, k) && i < |ss| - 1
      ensures false
    {
      assert Hit(cfg, front, i, k);
    }
  }

  /** The first-heard time is that of the first in-fence sighting: the one
      that created the record. */
  lemma {:induction false} FoldFirstHeard(cfg: Config, link: Linker, ss: seq<Sighting>, k: string, i: int)
    requires Hit(cfg, ss, i, k)
    requires forall l :: 0 <= l < i ==> !Hit(cfg, ss, l, k)
    ensures k in Fold(cfg, link, ss).tracks && Fold(cfg, link, ss).tracks[k].firstHeard == Heard(ss[i])
  {
    var last := |ss| - 1;
    var front := ss[..last];
    var s := ss[last];
    var t := Fold(cfg, link, front);
    assert Fold(cfg, link, ss) == Step(cfg, link, t, s);
    if i == last {
      FoldKeys(cfg, link, front, k);
      if k in t.tracks {
        var l :| Hit(cfg, front, l, k);
        assert Hit(cfg, ss, l, k);
      }
      StepInFence(cfg, link, t, s);
    } else {
      assert Hit(cfg, front, i, k);
      assert forall l :: 0 <= l < i ==> Hit(cfg, ss, l, k) == Hit(cfg, front, l, k);
      FoldFirstHeard(cfg, link, front, k, i);
      if s.icao == k && InFence(cfg, s) {
        StepInFence(cfg, link, t, s);
      } else {
        StepElsewhere(cfg, link, t, s, k);
      }
    }
  }

  /** The last-heard time is that of the last in-fence sighting, and the link
      is the one that sighting generated from the record's callsign at that
      moment. */
  lemma {:induction false} FoldLastHeard(cfg: Config, link: Linker, ss: seq<Sighting>, k: string, j: int)
    requires Hit(cfg, ss, j, k)
    requires forall l :: j < l < |ss| ==> !Hit(cfg, ss, l, k)
    ensures k in Fold(cfg, link, ss).tracks && k in Fold(cfg, link, ss[..j + 1]).tracks
    ensures Fold(cfg, link, ss).tracks[k].lastHeard == Heard(ss[j])
    ensures Fold(cfg, link, ss).tracks[k].link == link(ss[j], Fold(cfg, link, ss[..j + 1]).tracks[k].callsign)
  {
    var last := |ss| - 1;
    var front := ss[..last];
    var s := ss[last];
    var t := Fold(cfg, link, front);
    assert Fold(cfg, link, ss) == Step(cfg, link, t, s);
    if j == last {
      assert ss[..j + 1] == ss;
      StepInFence(cfg, link, t, s);
    } else {
      assert Hit(cfg, front, j, k);
      assert forall l :: j < l < last ==> Hit(cfg, ss, l, k) == Hit(cfg, front, l, k);
      FoldLastHeard(cfg, link, front, k, j);
      assert front[..j + 1] == ss[..j + 1];
      assert !Hit(cfg, ss, last, k);
      StepElsewhere(cfg, link, t, s, k);
    }
  }

  /** One more sighting keeps `c` the first non-empty callsign of `k` from
      position `i` on, given that `u` was that over the earlier sightings. */
  lemma CallsignExtend(front: seq<Sighting>, ss: seq<Sighting>, k: string, i: int, u: string, c: string)
    requires |ss| == |front| + 1 && ss[..|front|] == front
    requires 0 <= i < |front|
    requires u == "" <==> forall j :: i <= j ==> !Named(front, j, k)
    requires forall j :: i <= j && Named(front, j, k) && (forall l :: i <= l < j ==> !Named(front, l, k))
               ==> u == front[j].callsign
    requires var s := ss[|front|]; c == if s.icao == k && u == "" && s.callsign != "" then s.callsign else u
    ensures && (c == "" <==> forall j :: i <= j ==> !Named(ss, j, k))
            && (forall j :: i <= j && Named(ss, j, k) && (forall l :: i <= l < j ==> !Named(ss, l, k))
                  ==> c == ss[j].callsign)
  {
    forall j | 0 <= j < |front|
      ensures Named(ss, j, k) == Named(front, j, k)
    {
      assert ss[j] == front[j];
    }
    if u != "" {
      var j0 :| i <= j0 && Named(front, j0, k);
      assert Named(ss, j0, k);
      forall j | i <= j && Named(ss, j, k) && (forall l :: i <= l < j ==> !Named(ss, l, k))
        ensures c == ss[j].callsign
      {
        assert j <= j0;
        assert Named(front, j, k);
      }
    } else if c == "" {
      assert !Named(ss, |front|, k);
    } else {
      assert Named(ss, |front|, k);
    }
  }

  /** The callsign is the first non-empty one among the sightings of the ICAO
      from the creating sighting on, in the fence or not; it stays empty
      when there is none. */
  lemma {:induction false} FoldCallsign(cfg: Config, link: Linker, ss: seq<Sighting>, k: string, i: int)
    requires Hit(cfg, ss, i, k)
    requires forall l :: 0 <= l < i ==> !Hit(cfg, ss, l, k)
    ensures k in Fold(cfg, link, ss).tracks
    ensures var c := Fold(cfg, link, ss).tracks[k].callsign;
            && (c == "" <==> forall j :: i <= j ==> !Named(ss, j, k))
            && (forall j :: i <= j && Named(ss, j, k) && (forall l :: i <= l < j ==> !Named(ss, l, k))
                  ==> c == ss[j].callsign)
  {
    var last := |ss| - 1;
    var front := ss[..last];
    var s := ss[last];
    var t := Fold(cfg, link, front);
    assert Fold(cfg, link, ss) == Step(cfg, link, t, s);
    FoldKeys(cfg, link, ss, k);
    var c := Fold(cfg, link, ss).tracks[k].callsign;
    if i == last {
      NewRecordCallsign(cfg, link, ss, k);
      if c == "" {
        assert !Named(ss, last, k);
      } else {
        assert Named(ss, last, k);
      }
    } else {
      assert Hit(cfg, front, i, k);
      assert forall l :: 0 <= l < i ==> Hit(cfg, ss, l, k) == Hit(cfg, front, l, k);
      FoldCallsign(cfg, link, front, k, i);
      CallsignAfterStep(cfg, link, t, s, k);
      CallsignExtend(front, ss, k, i, t.tracks[k].callsign, c);
    }
  }

  /** A record created by the last sighting holds that sighting's callsign. */
  lemma NewRecordCallsign(cfg: Config, link: Linker, ss: seq<Sighting>, k: string)
    requires Hit(cfg, ss, |ss| - 1, k)
    requires forall l :: 0 <= l < |ss| - 1 ==> !Hit(cfg, ss, l, k)
    ensures k in Fold(cfg, link, ss).tracks
    ensures var c := Fold(cfg, link, ss).tracks[k].callsign;
            c == ss[|ss| - 1].callsign && (Named(ss, |ss| - 1, k) <==> c != "")
  {
    var front := ss[..|ss| - 1];
    var t := Fold(cfg, link, front);
    assert Fold(cfg, link, ss) == Step(cfg, link, t, ss[|ss| - 1]);
    FoldKeys(cfg, link, front, k);
    if k in t.tracks {
      var l :| Hit(cfg, front, l, k);
      assert Hit(cfg, ss, l, k);
    }
    StepInFence(cfg, link, t, ss[|ss| - 1]);
  }

  /** Through one step an existing callsign changes only by the backfill. */
  lemma CallsignAfterStep(cfg: Config, link: Linker, t: TableView, s: Sighting, k: string)
    requires TableOk(t) && k in t.tracks
    ensures var u := t.tracks[k].callsign;
            k in Step(cfg, link, t, s).tracks
            && Step(cfg, link, t, s).tracks[k].callsign
               == if s.icao == k && u == "" && s.callsign != "" then s.callsign else u
  {
    StepKeys(cfg, link, t, s);
    StepCallsign(cfg, link, t, s);
  }

  /** One more row decodes when the rows before it do and it has twelve
      fields. */
  lemma DecodeAllStep(cfg: Config, rows: seq<seq<string>>)
    requires rows != []
    ensures var front := rows[..|rows| - 1];
            && (DecodeAll(cfg, rows).Ok? <==> DecodeAll(cfg, front).Ok? && |rows[|rows| - 1]| == 12)
            && (DecodeAll(cfg, rows).Ok? ==>
                  var d := Decode(cfg, CleanRow(rows[|rows| - 1]));
                  d.Some? && DecodeAll(cfg, rows).value == DecodeAll(cfg, front).value + [d.value])
  {
    assert Decode(cfg, CleanRow(rows[|rows| - 1])).Some? <==> |rows[|rows| - 1]| == 12;
  }

  /** A row without twelve fields anywhere stops the decoding. */
  lemma {:induction false} DecodeAllBad(cfg: Config, rows: seq<seq<string>>, j: nat)
    requires j < |rows| && |rows[j]| != 12
    ensures !DecodeAll(cfg, rows).Ok?
  {
    var last := |rows| - 1;
    DecodeAllStep(cfg, rows);
    if j < last {
      var front := rows[..last];
      assert front[j] == rows[j];
      DecodeAllBad(cfg, front, j);
    } else {
      assert |rows[|rows| - 1]| != 12;
    }
  }

  /** Rows of twelve fields all decode. */
  lemma {:induction false} DecodeAllGood(cfg: Config, rows: seq<seq<string>>)
    requires forall i :: 0 <= i < |rows| ==> |rows[i]| == 12
    ensures DecodeAll(cfg, rows).Ok?
  {
    if rows != [] {
      var front := rows[..|rows| - 1];
      assert forall i :: 0 <= i < |front| ==> front[i] == rows[i];
      DecodeAllGood(cfg, front);
      DecodeAllStep(cfg, rows);
    }
  }

  /** The rows decode without error exactly when every row has twelve
      fields. */
  lemma DecodeAllOk(cfg: Config, rows: seq<seq<string>>)
    ensures DecodeAll(cfg, rows).Ok? <==> forall i :: 0 <= i < |rows| ==> |rows[i]| == 12
  {
    if exists j :: 0 <= j < |rows| && |rows[j]| != 12 {
      var j :| 0 <= j < |rows| && |rows[j]| != 12;
      DecodeAllBad(cfg, rows, j);
    } else {
      DecodeAllGood(cfg, rows);
    }
  }

  /** A run that decodes, decodes row by row. */
  lemma {:induction false} DecodeAllRows(cfg: Config, rows: seq<seq<string>>)
    requires DecodeAll(cfg, rows).Ok?
    ensures forall i :: 0 <= i < |rows| ==> Decode(cfg, CleanRow(rows[i])) == Some(DecodeAll(cfg, rows).value[i])
  {
    if rows != [] {
      var last := |rows| - 1;
      var front := rows[..last];
      DecodeAllStep(cfg, rows);
      DecodeAllRows(cfg, front);
      var ss := DecodeAll(cfg, front).value;
      var out := DecodeAll(cfg, rows).value;
      forall i | 0 <= i < |rows|
        ensures Decode(cfg, CleanRow(rows[i])) == Some(out[i])
      {
        if i < last {
          assert rows[i] == front[i] && out[i] == ss[i];
        } else {
          assert out[i] == Decode(cfg, CleanRow(rows[last])).value;
        }
      }
    }
  }

  /** A run that stops, stops at the first row without twelve fields. */
  lemma {:induction false} DecodeAllErr(cfg: Config, rows: seq<seq<string>>)
    ensures DecodeAll(cfg, rows).Err? ==>
              var i := DecodeAll(cfg, rows).error.row;
              i < |rows| && |rows[i]| != 12 && forall j :: 0 <= j < i ==> |rows[j]| == 12
  {
    if rows != [] {
      var last := |rows| - 1;
      var front := rows[..last];
      DecodeAllErr(cfg, front);
      DecodeAllOk(cfg, front);
      assert forall i :: 0 <= i < last ==> rows[i] == front[i];
      var d := Decode(cfg, CleanRow(rows[last]));
      assert d.Some? <==> |rows[last]| == 12;
    }
  }

  /** What a run leaves behind: an exception at the first row without twelve
      fields; otherwise the file only when some sighting was in the fence,
      holding one row per such ICAO in order of first in-fence sighting. */
  lemma RunOutcome(cfg: Config, rows: seq<seq<string>>)
    ensures Run(cfg, rows).Aborted? <==> exists i :: 0 <= i < |rows| && |rows[i]| != 12
    ensures Run(cfg, rows).Aborted? ==>
              var i := Run(cfg, rows).error.row;
              i < |rows| && |rows[i]| != 12 && forall j :: 0 <= j < i ==> |rows[j]| == 12
    ensures !Run(cfg, rows).Aborted? ==>
              var ss := DecodeAll(cfg, rows).value;
              && (Run(cfg, rows).Written? <==> exists i :: 0 <= i < |ss| && InFence(cfg, ss[i]))
              && (Run(cfg, rows).Written? ==>
                    var out := Run(cfg, rows).rows;
                    |out| == |Dedup(FenceIcaos(cfg, ss))|
                    && forall i :: 0 <= i < |out| ==> out[i].icao == Dedup(FenceIcaos(cfg, ss))[i])
  {
    DecodeAllOk(cfg, rows);
    if DecodeAll(cfg, rows).Ok? {
      DecodeAllRows(cfg, rows);
    }
    DecodeAllErr(cfg, rows);
    if DecodeAll(cfg, rows).Err? {
      var i := DecodeAll(cfg, rows).error.row;
      assert 0 <= i < |rows| && |rows[i]| != 12;
    } else {
      var ss := DecodeAll(cfg, rows).value;
      FoldCount(cfg, Links(cfg), ss);
      FoldOrder(cfg, Links(cfg), ss);
    }
  }

  /** An ICAO that is not six characters long keeps both sentinels, so its
      sighting is in the fence only when both thresholds reach 999999. */
  lemma SentinelOutOfFence(cfg: Config, row: seq<string>)
    requires |row| == 12 && |row[0]| != 6
    ensures InFence(cfg, Decode(cfg, row).value) <==>
              Sentinel as real <= cfg.maxDist && Sentinel as real <= cfg.maxAlt
  {
  }

  /** Two in-fence sightings of one aircraft leave a single record: first
      heard at the first, last heard at the second, with the lower of the two
      altitudes and of the two distances, and the first non-empty callsign. */
  lemma LowerAltitudeWins(cfg: Config, link: Linker, s1: Sighting, s2: Sighting)
    requires s1.icao == s2.icao && InFence(cfg, s1) && InFence(cfg, s2)
    ensures var t := Fold(cfg, link, [s1, s2]);
            && t.order == [s1.icao] && t.tracks.Keys == {s1.icao}
            && t.tracks[s1.icao].minAlt == (if s2.alt < s1.alt then s2.alt else s1.alt)
            && t.tracks[s1.icao].minDist == (if s2.dist < s1.dist then s2.dist else s1.dist)
            && t.tracks[s1.icao].firstHeard == Heard(s1)
            && t.tracks[s1.icao].lastHeard == Heard(s2)
            && t.tracks[s1.icao].callsign == (if s1.callsign != "" then s1.callsign else s2.callsign)
  {
    assert [s1, s2][..1] == [s1];
    assert [s1][..0] == [];
    assert Fold(cfg, link, [s1]) == Step(cfg, link, Empty, s1);
    assert Fold(cfg, link, [s1, s2]) == Step(cfg, link, Fold(cfg, link, [s1]), s2);
  }

  /** The adsbexchange link names the lower-cased ICAO and, for an ISO date,
      carries the date unchanged as its trace day. */
  lemma AxLinkShape(icao: string, lat: string, lon: string, date: string)
    requires |date| >= 10 && date[4] == '-' && date[7] == '-'
    ensures var l := AxLink(icao, lat, lon, date);
            && |l| >= |AxPrefix| + |icao| + 21
            && l[..|AxPrefix| + |icao|] == AxPrefix + Lower(icao)
            && l[|l| - 21..] == "&showTrace=" + date[..10]
  {
    var l := AxLink(icao, lat, lon, date);
    var tail := "&showTrace=" + Slice(date, 0, 4) + "-" + Slice(date, 5, 7) + "-" + Slice(date, 8, 10);
    assert tail == "&showTrace=" + date[..10];
    var head := AxPrefix + Lower(icao);
    assert l == head + ("&lat=" + lat + "&lon=" + lon + "&zoom=12") + tail;
  }

  /** The stored link is already stripped, and the flightaware link is stored
      exactly as built, since it starts with `h` and ends with `t`. */
  lemma TrackLinkStripped(cfg: Config, s: Sighting, callsign: string)
    ensures Strip(TrackLink(cfg, s, callsign)) == TrackLink(cfg, s, callsign)
    ensures cfg.service == FlightAware ==> TrackLink(cfg, s, callsign) == FaLink(s.icao, callsign)
  {
    var fa := FaLink(s.icao, callsign);
    assert fa[0] == 'h' && fa[|fa| - 1] == 't';
    StripUnchanged(fa, Py3Space);
    StripIdempotent(AxLink(s.icao, s.lat, s.lon, s.date), Py3Space);
  }
}
