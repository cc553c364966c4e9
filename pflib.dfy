/** The helper library of the notifiers: reading `planefence.config`, loading
    the plane-alert database, and the small formatters and decisions used
    while a notification is built. */
module Pflib {
  import opened Wrappers
  import opened PyStr
  import Planefence

  // ---------------------------------------------------------------------------
  // Last write wins

  /** A map after a sequence of optional assignments, applied in order. */
  function Apply<K, V>(m: map<K, V>, us: seq<Option<(K, V)>>): map<K, V> {
    if us == [] then m
    else
      var prev := Apply(m, us[..|us| - 1]);
      match us[|us| - 1]
      case None => prev
      case Some(kv) => prev[kv.0 := kv.1]
  }

  /** Assignment `i` of `us` sets key `k`. */
  predicate Sets<K(==), V>(us: seq<Option<(K, V)>>, i: int, k: K) {
    0 <= i < |us| && us[i].Some? && us[i].value.0 == k
  }

  /** After the assignments a key holds the value of the last assignment to
      it. */
  lemma {:induction false} ApplyLastSet<K, V>(m: map<K, V>, us: seq<Option<(K, V)>>, k: K, i: int)
    requires Sets(us, i, k) && forall j :: i < j < |us| ==> !Sets(us, j, k)
    ensures k in Apply(m, us) && Apply(m, us)[k] == us[i].value.1
  {
    var init := us[..|us| - 1];
    if i < |init| {
      assert !Sets(us, |us| - 1, k);
      assert Sets(init, i, k);
      forall j | i < j < |init|
        ensures !Sets(init, j, k)
      {
        assert !Sets(us, j, k);
      }
      ApplyLastSet(m, init, k, i);
    }
  }

  /** A key that no assignment sets keeps its original entry, or stays
      absent. */
  lemma {:induction false} ApplyUnset<K, V>(m: map<K, V>, us: seq<Option<(K, V)>>, k: K)
    requires forall i :: !Sets(us, i, k)
    ensures k in Apply(m, us) <==> k in m
    ensures k in m ==> Apply(m, us)[k] == m[k]
  {
    if us != [] {
      var init := us[..|us| - 1];
      assert !Sets(us, |us| - 1, k);
      forall j | 0 <= j < |init|
        ensures !Sets(init, j, k)
      {
        assert !Sets(us, j, k);
      }
      ApplyUnset(m, init, k);
    }
  }

  // ---------------------------------------------------------------------------
  // load_config

  const DefaultPlanefile: string := "/usr/share/planefence/persist/.internal/plane-alert-db.txt"

  const PaWebhooks: string := "PA_DISCORD_WEBHOOKS"
  const PfWebhooks: string := "PF_DISCORD_WEBHOOKS"

  /** `os.getenv(key, default)`. */
  function GetEnv(env: map<string, string>, key: string, default: string): string {
    if key in env then env[key] else default
  }

  /** `dict.get(key, "")`. */
  function Lookup(m: map<string, string>, key: string): string {
    if key in m then m[key] else ""
  }

  /** The entries taken from the environment before the file is read. */
  function Defaults(env: map<string, string>): map<string, string> {
    map["PLANEFILE" := GetEnv(env, "PLANEFILE", DefaultPlanefile),
        PaWebhooks := GetEnv(env, PaWebhooks, ""),
        PfWebhooks := GetEnv(env, PfWebhooks, ""),
        "DISCORD_FEEDER_NAME" := GetEnv(env, "DISCORD_FEEDER_NAME", ""),
        "DISCORD_MEDIA" := GetEnv(env, "DISCORD_MEDIA", "")]
  }

  /** A line whose stripped text starts with `#`. */
  predicate IsComment(line: string) {
    var s := Strip(line);
    |s| > 0 && s[0] == '#'
  }

  /** The assignment one line of the file makes: none for a comment or for a
      line that does not split into exactly two parts on `=`. */
  function LineAssignment(line: string): (r: Option<(string, string)>)
    ensures r.Some? <==> !IsComment(line) && Occurrences(line, '=') == 1
  {
    if IsComment(line) then None
    else
      var split := Split(line, '=');
      if |split| == 2 then Some((Strip(split[0]), Strip(split[1]))) else None
  }

  /** A line `key=value` with one `=` that is not a comment assigns the
      stripped value to the stripped key. */
  lemma LineAssignmentOf(key: string, value: string)
    requires '=' !in key && '=' !in value && !IsComment(key + "=" + value)
    ensures LineAssignment(key + "=" + value) == Some((Strip(key), Strip(value)))
  {
    assert key + "=" + value == key + ['='] + value;
    SplitAppend(key, value, '=');
    SplitNoSeparator(value, '=');
  }

  /** Every assignment a line makes, with the line's own text put back
      together from the two parts it was split into. */
  lemma LineAssignmentParts(line: string)
    requires LineAssignment(line).Some?
    ensures var split := Split(line, '=');
            |split| == 2 && line == split[0] + "=" + split[1]
            && LineAssignment(line).value == (Strip(split[0]), Strip(split[1]))
  {
    var split := Split(line, '=');
    JoinSplit(line, '=');
    assert split[1..] == [split[1]];
  }

  function Assignments(lines: seq<string>): (us: seq<Option<(string, string)>>)
    ensures |us| == |lines|
  {
    seq(|lines|, i requires 0 <= i < |lines| => LineAssignment(lines[i]))
  }

  /** The string entries after the file: the environment defaults, then
      each line's assignment in order. `file` is `None` when
      `planefence.config` does not exist. */
  function ConfigEntries(env: map<string, string>, file: Option<seq<string>>): map<string, string> {
    Apply(Defaults(env), if file.Some? then Assignments(file.value) else [])
  }

  /** The configuration `load_config` returns: the string entries, with the
      two webhook entries replaced by their comma-separated parts. */
  datatype PfConfig = PfConfig(settings: map<string, string>, paWebhooks: seq<string>, pfWebhooks: seq<string>)

  function Finish(m: map<string, string>): PfConfig {
    PfConfig(m - {PaWebhooks, PfWebhooks}, Split(Lookup(m, PaWebhooks), ','), Split(Lookup(m, PfWebhooks), ','))
  }

  /** The last line that assigns `key` decides its value. */
  lemma ConfigLastLine(env: map<string, string>, lines: seq<string>, key: string, i: int)
    requires Sets(Assignments(lines), i, key)
    requires forall j :: i < j < |lines| ==> !Sets(Assignments(lines), j, key)
    ensures key in ConfigEntries(env, Some(lines))
    ensures ConfigEntries(env, Some(lines))[key] == LineAssignment(lines[i]).value.1
  {
    ApplyLastSet(Defaults(env), Assignments(lines), key, i);
  }

  /** Without a line that assigns `key`, the environment, or the built-in
      default, decides; other keys stay absent. */
  lemma ConfigUnassigned(env: map<string, string>, lines: seq<string>, key: string)
    requires forall i :: !Sets(Assignments(lines), i, key)
    ensures key in ConfigEntries(env, Some(lines)) <==> key in Defaults(env)
    ensures key in Defaults(env) ==> ConfigEntries(env, Some(lines))[key] == Defaults(env)[key]
    ensures key == "DISCORD_MEDIA" ==> ConfigEntries(env, Some(lines))[key] == GetEnv(env, "DISCORD_MEDIA", "")
  {
    ApplyUnset(Defaults(env), Assignments(lines), key);
  }

  /** The webhook lists are the comma-separated parts of the entries: joining
      them gives the entry back, and an empty entry gives one empty part. */
  lemma WebhookParts(m: map<string, string>)
    ensures Join(Finish(m).paWebhooks, ',') == Lookup(m, PaWebhooks)
    ensures Join(Finish(m).pfWebhooks, ',') == Lookup(m, PfWebhooks)
    ensures Lookup(m, PaWebhooks) == "" ==> Finish(m).paWebhooks == [""]
    ensures PaWebhooks !in Finish(m).settings && PfWebhooks !in Finish(m).settings
  {
    JoinSplit(Lookup(m, PaWebhooks), ',');
    JoinSplit(Lookup(m, PfWebhooks), ',');
  }

  /** The reading part of `load_config`: the environment defaults, then the
      file line by line, then the webhook split. */
  method ParseConfig(env: map<string, string>, file: Option<seq<string>>) returns (cfg: PfConfig)
    ensures cfg == Finish(ConfigEntries(env, file))
  {
    var config := Defaults(env);
    if file.Some? {
      var lines := file.value;
      var i := 0;
      while i < |lines|
        invariant 0 <= i <= |lines|
        invariant config == Apply(Defaults(env), Assignments(lines[..i]))
      {
        var line := lines[i];
        if !IsComment(line) {
          var split := Split(line, '=');
          if |split| == 2 {
            config := config[Strip(split[0]) := Strip(split[1])];
          }
        }
        assert Assignments(lines[..i + 1])[..i] == Assignments(lines[..i]);
        i := i + 1;
      }
      assert lines[..i] == lines;
    }
    cfg := PfConfig(config - {PaWebhooks, PfWebhooks},
                    Split(Lookup(config, PaWebhooks), ','), Split(Lookup(config, PfWebhooks), ','));
  }

  // ---------------------------------------------------------------------------
  // load_planefile and get_plane_info

  /** One entry of the plane-alert database. */
  datatype Plane = Plane(
    icao: string, tailNum: string, owner: string, kind: string,
    icaoType: string, authority: string, tag1: string, tag2: string, tag3: string,
    category: string, link: string,
    photos: Option<seq<string>>)   // the `photos` key exists only for rows with more than 11 fields

  /** `row[i] if len(row) > i else ""`, which is also what `_try_get_photo`
      returns. */
  function FieldOr(row: seq<string>, i: nat): (r: string)
    ensures i < |row| ==> r == row[i]
    ensures i >= |row| ==> r == ""
  {
    if i < |row| then row[i] else ""
  }

  /** The non-empty strings of `xs`, in order. */
  function NonEmpty(xs: seq<string>): (r: seq<string>)
    ensures |r| <= |xs|
    ensures forall x :: x in r <==> x in xs && x != ""
  {
    if xs == [] then []
    else
      var rest := NonEmpty(xs[1..]);
      assert forall x :: x in xs <==> x == xs[0] || x in xs[1..];
      if xs[0] != "" then [xs[0]] + rest else rest
  }

  /** Filtering a concatenation filters each part: the non-empty strings
      keep their order and their repetitions. */
  lemma {:induction false} NonEmptyAppend(a: seq<string>, b: seq<string>)
    ensures NonEmpty(a + b) == NonEmpty(a) + NonEmpty(b)
    ensures forall x :: NonEmpty([x]) == (if x != "" then [x] else [])
  {
    if a == [] {
      assert a + b == b;
    } else {
      assert (a + b)[1..] == a[1..] + b;
      NonEmptyAppend(a[1..], b);
    }
    forall x ensures NonEmpty([x]) == (if x != "" then [x] else []) {
      assert [x][1..] == [];
    }
  }

  /** The entry a row of at least four fields makes. */
  function PlaneOf(row: seq<string>): (p: Plane)
    requires |row| >= 4
    ensures p.icao == row[0] && p.tailNum == row[1] && p.owner == row[2] && p.kind == row[3]
    ensures p.icaoType == FieldOr(row, 4) && p.authority == FieldOr(row, 5)
    ensures p.tag1 == FieldOr(row, 6) && p.tag2 == FieldOr(row, 7) && p.tag3 == FieldOr(row, 8)
    ensures p.category == FieldOr(row, 9) && p.link == FieldOr(row, 10)
    ensures p.photos.Some? <==> |row| > 11
    ensures p.photos.Some? ==> p.photos.value == NonEmpty([FieldOr(row, 11), FieldOr(row, 12), FieldOr(row, 13)])
    ensures p.photos.Some? ==>
              |p.photos.value| <= 3
              && forall x :: x in p.photos.value <==> x != "" && exists j :: 11 <= j < 14 && j < |row| && row[j] == x
  {
    var photos := [FieldOr(row, 11), FieldOr(row, 12), FieldOr(row, 13)];
    assert forall x :: x in photos && x != "" ==> exists j :: 11 <= j < 14 && j < |row| && row[j] == x;
    Plane(row[0], row[1], row[2], row[3],
          FieldOr(row, 4), FieldOr(row, 5), FieldOr(row, 6), FieldOr(row, 7), FieldOr(row, 8),
          FieldOr(row, 9), FieldOr(row, 10),
          if |row| > 11 then Some(NonEmpty(photos)) else None)
  }

  /** The `IndexError` that ends the load, with the row index. */
  datatype PlaneFileError = IndexOut(row: nat)

  datatype RowEffect = Skip | Abort(error: PlaneFileError) | Add(plane: Plane)

  /** Lines 109-136 as written: `row[0]` is read before `not row` is tested,
      so a blank line raises, and so does a row of one to three fields. This
      is the action the load uses. */
  function RowAction(row: seq<string>, n: nat): RowEffect {
    if row == [] then Abort(IndexOut(n))
    else if |row[0]| > 0 && row[0][0] == '#' then Skip
    else if |row| < 4 then Abort(IndexOut(n))
    else Add(PlaneOf(row))
  }

  /** Lines 109-136 with the two tests in the intended order: a blank line
      is skipped like a comment. */
  function RowActionFixed(row: seq<string>, n: nat): RowEffect {
    if row == [] then Skip else RowAction(row, n)
  }

  /** A blank line aborts the load as written; the corrected test skips it,
      and the two agree on every other row. */
  lemma BlankRowAborts(row: seq<string>, n: nat)
    ensures RowAction([], n) == Abort(IndexOut(n))
    ensures RowActionFixed([], n) == Skip
    ensures row != [] ==> RowActionFixed(row, n) == RowAction(row, n)
  {
  }

  /** The database after the rows, or after the row that raised, with that
      row's error. */
  datatype Loaded = Loaded(db: map<string, Plane>, error: Option<PlaneFileError>)

  function LoadRows(rows: seq<seq<string>>): (r: Loaded)
    ensures forall k :: k in r.db ==> r.db[k].icao == k
  {
    if rows == [] then Loaded(map[], None)
    else
      var prev := LoadRows(rows[..|rows| - 1]);
      if prev.error.Some? then prev
      else match RowAction(rows[|rows| - 1], |rows| - 1)
        case Skip => prev
        case Abort(e) => Loaded(prev.db, Some(e))
        case Add(p) => Loaded(prev.db[p.icao := p], None)
  }

  /** Row `i` adds an entry for `k`. */
  predicate AddsKey(rows: seq<seq<string>>, i: int, k: string) {
    0 <= i < |rows| && RowAction(rows[i], i).Add? && rows[i][0] == k
  }

  function RowAssignments(rows: seq<seq<string>>): (us: seq<Option<(string, Plane)>>)
    ensures |us| == |rows|
  {
    seq(|rows|, i requires 0 <= i < |rows| =>
      match RowAction(rows[i], i)
      case Add(p) => Some((p.icao, p))
      case _ => None)
  }

  /** A load without error is the last-write-wins map of the added rows. */
  lemma {:induction false} LoadRowsApply(rows: seq<seq<string>>)
    requires LoadRows(rows).error.None?
    ensures LoadRows(rows).db == Apply(map[], RowAssignments(rows))
  {
    if rows != [] {
      var init := rows[..|rows| - 1];
      assert LoadRows(init).error.None?;
      LoadRowsApply(init);
      assert RowAssignments(rows)[..|rows| - 1] == RowAssignments(init);
    }
  }

  /** A later row for the same ICAO replaces an earlier one. */
  lemma LoadRowsLast(rows: seq<seq<string>>, k: string, i: int)
    requires LoadRows(rows).error.None?
    requires AddsKey(rows, i, k) && forall j :: i < j < |rows| ==> !AddsKey(rows, j, k)
    ensures k in LoadRows(rows).db && LoadRows(rows).db[k] == PlaneOf(rows[i])
  {
    LoadRowsApply(rows);
    var us := RowAssignments(rows);
    assert Sets(us, i, k);
    forall j | i < j < |rows|
      ensures !Sets(us, j, k)
    {
      assert !AddsKey(rows, j, k);
    }
    ApplyLastSet(map[], us, k, i);
  }

  /** An ICAO that no row adds is not in the database. */
  lemma LoadRowsAbsent(rows: seq<seq<string>>, k: string)
    requires LoadRows(rows).error.None?
    requires forall i :: !AddsKey(rows, i, k)
    ensures k !in LoadRows(rows).db
  {
    LoadRowsApply(rows);
    var us := RowAssignments(rows);
    forall j | 0 <= j < |rows|
      ensures !Sets(us, j, k)
    {
      assert !AddsKey(rows, j, k);
    }
    ApplyUnset(map[], us, k);
  }

  /** The load fails exactly when some row aborts, with the error of the
      first such row. */
  lemma {:induction false} LoadRowsError(rows: seq<seq<string>>)
    ensures LoadRows(rows).error.Some? <==> exists i :: 0 <= i < |rows| && RowAction(rows[i], i).Abort?
    ensures LoadRows(rows).error.Some? ==>
              exists i :: 0 <= i < |rows| && RowAction(rows[i], i) == Abort(LoadRows(rows).error.value)
                          && forall j :: 0 <= j < i ==> !RowAction(rows[j], j).Abort?
  {
    if rows != [] {
      var init := rows[..|rows| - 1];
      LoadRowsError(init);
      assert forall i :: 0 <= i < |init| ==> init[i] == rows[i];
    }
  }

  /** As written, a blank line after rows that loaded cleanly ends the load
      with an `IndexError` at that line. */
  lemma LoadRowsBlankAborts(rows: seq<seq<string>>)
    requires LoadRows(rows).error.None?
    ensures LoadRows(rows + [[]]) == Loaded(LoadRows(rows).db, Some(IndexOut(|rows|)))
  {
    assert (rows + [[]])[..|rows|] == rows;
  }

  /** The load with the corrected row test. */
  function LoadRowsFixed(rows: seq<seq<string>>): (r: Loaded)
    ensures forall k :: k in r.db ==> r.db[k].icao == k
  {
    if rows == [] then Loaded(map[], None)
    else
      var prev := LoadRowsFixed(rows[..|rows| - 1]);
      if prev.error.Some? then prev
      else match RowActionFixed(rows[|rows| - 1], |rows| - 1)
        case Skip => prev
        case Abort(e) => Loaded(prev.db, Some(e))
        case Add(p) => Loaded(prev.db[p.icao := p], None)
  }

  /** With the corrected test, appending a blank line changes nothing. */
  lemma LoadRowsSkipsBlank(rows: seq<seq<string>>)
    ensures LoadRowsFixed(rows + [[]]) == LoadRowsFixed(rows)
  {
    assert (rows + [[]])[..|rows|] == rows;
  }

  /** The two loads agree on every file without a blank line. */
  lemma {:induction false} LoadRowsAgree(rows: seq<seq<string>>)
    requires forall i :: 0 <= i < |rows| ==> rows[i] != []
    ensures LoadRowsFixed(rows) == LoadRows(rows)
  {
    if rows != [] {
      var init := rows[..|rows| - 1];
      assert forall i :: 0 <= i < |init| ==> init[i] == rows[i];
      LoadRowsAgree(init);
    }
  }

  /** Once a row has raised, the rows after it are not read. */
  lemma {:induction false} LoadRowsAbort(rows: seq<seq<string>>, i: nat)
    requires i < |rows| && LoadRows(rows[..i]).error.None? && RowAction(rows[i], i).Abort?
    ensures LoadRows(rows) == Loaded(LoadRows(rows[..i]).db, Some(RowAction(rows[i], i).error))
    decreases |rows|
  {
    if i == |rows| - 1 {
      assert rows[..|rows| - 1] == rows[..i];
    } else {
      var init := rows[..|rows| - 1];
      assert init[..i] == rows[..i] && init[i] == rows[i];
      LoadRowsAbort(init, i);
    }
  }

  /** The global `planedb`. */
  class PlaneDb {
    var entries: map<string, Plane>

    /** Every entry is filed under its own ICAO. */
    ghost predicate Valid()
      reads this
    {
      forall k :: k in entries ==> entries[k].icao == k
    }

    constructor ()
      ensures entries == map[] && Valid()
    {
      entries := map[];
    }

    /** `load_planefile`: `rows` are the CSV rows of the file the
        configuration names. The database is emptied first; a row that
        raises ends the load and leaves the entries added before it. */
    method Load(rows: seq<seq<string>>) returns (err: Option<PlaneFileError>)
      modifies this
      ensures entries == LoadRows(rows).db && err == LoadRows(rows).error
      ensures Valid()
    {
      entries := map[];
      var i := 0;
      while i < |rows|
        invariant 0 <= i <= |rows|
        invariant LoadRows(rows[..i]) == Loaded(entries, None)
      {
        var action := RowAction(rows[i], i);
        assert rows[..i + 1][..i] == rows[..i];
        match action {
          case Skip =>
          case Abort(e) =>
            LoadRowsAbort(rows, i);
            return Some(e);
          case Add(p) =>
            entries := entries[p.icao := p];
        }
        i := i + 1;
      }
      assert rows[..i] == rows;
      err := None;
    }

    /** `get_plane_info`: the entry for `icao`, or nothing (`{}`). */
    function Info(icao: string): (r: Option<Plane>)
      reads this
      requires Valid()
      ensures r.Some? <==> icao in entries
      ensures r.Some? ==> r.value.icao == icao && r.value == entries[icao]
    {
      if icao in entries then Some(entries[icao]) else None
    }
  }

  /** All of `load_config`: the configuration, then the database from the
      rows of the file it names (`planeRows`). */
  method LoadConfig(env: map<string, string>, file: Option<seq<string>>, planeRows: seq<seq<string>>, db: PlaneDb)
    returns (cfg: PfConfig, err: Option<PlaneFileError>)
    modifies db
    ensures cfg == Finish(ConfigEntries(env, file))
    ensures db.entries == LoadRows(planeRows).db && err == LoadRows(planeRows).error
  {
    cfg := ParseConfig(env, file);
    err := db.Load(planeRows);
  }

  // ---------------------------------------------------------------------------
  // Formatters

  /** `config.get(key, "")` on a string entry. */
  function Setting(cfg: PfConfig, key: string): string {
    Lookup(cfg.settings, key)
  }

  /** `distance_unit`: the unit name the fence script accepts, for the
      configured `PF_DISTUNIT`. */
  function DistanceUnit(cfg: PfConfig): (r: string)
    ensures Planefence.ParseDistUnit(r).Some?
    ensures r == "nm" <==> Setting(cfg, "PF_DISTUNIT") == "nauticalmile"
    ensures r == "km" <==> Setting(cfg, "PF_DISTUNIT") == "kilometer"
    ensures r == "m" <==> Setting(cfg, "PF_DISTUNIT") == "meter"
    ensures r == "mi" <==> Setting(cfg, "PF_DISTUNIT") !in {"nauticalmile", "kilometer", "meter"}
  {
    var cdu := Setting(cfg, "PF_DISTUNIT");
    if cdu == "nauticalmile" then "nm"
    else if cdu == "kilometer" then "km"
    else if cdu == "meter" then "m"
    else "mi"
  }

  /** The station elevation: `PF_ELEVATION` when it is all digits, else 0. */
  function Elevation(cfg: PfConfig): nat {
    var e := Setting(cfg, "PF_ELEVATION");
    if IsDigits(e) then DecimalValue(e) else 0
  }

  function AltUnit(cfg: PfConfig): string {
    if Setting(cfg, "PF_ALTUNIT") == "meter" then "m" else "ft"
  }

  function AltKind(cfg: PfConfig): string {
    if Elevation(cfg) > 0 then "AGL" else "MSL"
  }

  /** The altitude shown: above ground when an elevation is configured. */
  function AltActual(cfg: PfConfig, alt: int): int {
    if Elevation(cfg) > 0 then alt - Elevation(cfg) else alt
  }

  /** `altitude_str`. */
  function AltitudeStr(cfg: PfConfig, alt: int): string {
    Grouped(AltActual(cfg, alt)) + AltUnit(cfg) + " " + AltKind(cfg)
  }

  /** `str(n)` for an integer. */
  function IntString(n: int): string {
    if n < 0 then "-" + DecimalString(-n) else DecimalString(n)
  }

  /** Dropping the thousands separators from `'{:,}'.format(n)` gives
      `str(n)`. */
  lemma GroupedReadsBack(n: int)
    ensures RemoveChar(Grouped(n), ',') == IntString(n)
  {
    var d := if n < 0 then DecimalString(-n) else DecimalString(n);
    assert ',' !in d;
    UngroupDigits(d);
    if n < 0 {
      RemoveCharAppend("-", GroupDigits(d), ',');
      RemoveCharAbsent("-", ',');
    }
  }

  /** The text reads back: a number that is the altitude, less a configured
      elevation, once its thousands separators are dropped; then `m` exactly
      for `PF_ALTUNIT=meter`, `ft` otherwise; then `AGL` exactly when
      `PF_ELEVATION` is a positive number, `MSL` otherwise. */
  lemma AltitudeStrSpec(cfg: PfConfig, alt: int)
    ensures var e := Setting(cfg, "PF_ELEVATION");
            var agl := IsDigits(e) && DecimalValue(e) > 0;
            var g := Grouped(AltActual(cfg, alt));
            && AltitudeStr(cfg, alt) == g + AltUnit(cfg) + " " + AltKind(cfg)
            && RemoveChar(g, ',') == IntString(AltActual(cfg, alt))
            && AltUnit(cfg) == (if Setting(cfg, "PF_ALTUNIT") == "meter" then "m" else "ft")
            && AltKind(cfg) == (if agl then "AGL" else "MSL")
            && AltActual(cfg, alt) == (if agl then alt - DecimalValue(e) else alt)
  {
    GroupedReadsBack(AltActual(cfg, alt));
  }

  /** `s.strip()` with every `[` and `]` removed; the case is kept. */
  function CleanId(s: string): (r: string)
    ensures '[' !in r && ']' !in r
    ensures forall x :: x != '[' && x != ']' ==> (x in r <==> x in Strip(s))
    ensures r == RemoveChar(RemoveChar(Strip(s), '['), ']')
  {
    RemoveChar(RemoveChar(Strip(s), '['), ']')
  }

  /** `flightaware_link`. */
  function FlightawareLink(icao: string, tailNum: string): (r: string)
    ensures '[' !in r && ']' !in r
  {
    assert '[' !in Planefence.FaPrefix && ']' !in Planefence.FaPrefix;
    assert '[' !in "/ident/" && ']' !in "/ident/" && '[' !in "/redirect" && ']' !in "/redirect";
    Planefence.FaPrefix + CleanId(icao) + "/ident/" + CleanId(tailNum) + "/redirect"
  }

  /** For an identifier that is already stripped, bracket-free and lower
      case, the library builds the same link the fence script stores. */
  lemma FlightawareLinkAgrees(icao: string, tailNum: string)
    requires Strip(icao) == icao && Strip(tailNum) == tailNum
    requires '[' !in icao && ']' !in icao && '[' !in tailNum && ']' !in tailNum
    requires Lower(icao) == icao
    ensures FlightawareLink(icao, tailNum) == Planefence.FaLink(icao, tailNum)
  {
    RemoveCharAbsent(icao, '[');
    RemoveCharAbsent(icao, ']');
    RemoveCharAbsent(tailNum, '[');
    RemoveCharAbsent(tailNum, ']');
  }

  /** `is_emergency`: the hijack, radio-failure and emergency squawks. */
  function IsEmergency(squawk: string): (r: bool)
    ensures r ==> |squawk| == 4 && squawk[0] == '7' && squawk[2..] == "00" && squawk[1] in {'5', '6', '7'}
  {
    squawk in ["7700", "7600", "7500"]
  }

  /** Every four-character squawk of the form 7x00 with x in 5, 6, 7 is an
      emergency. */
  lemma EmergencyShape(squawk: string)
    requires |squawk| == 4 && squawk[0] == '7' && squawk[2..] == "00" && squawk[1] in {'5', '6', '7'}
    ensures IsEmergency(squawk)
  {
    assert squawk == [squawk[0], squawk[1]] + squawk[2..];
    if squawk[1] == '5' {
      assert squawk == "7500";
    } else if squawk[1] == '6' {
      assert squawk == "7600";
    } else {
      assert squawk == "7700";
    }
  }

  // ---------------------------------------------------------------------------
  // attach_media

  /** The image and thumbnail URLs for a media mode, before the swap.
      `photo` and `screenshot` stand for what `get_photo_url` and
      `get_screenshot_url` return (`""` when there is none). */
  function Candidates(mode: string, subsystem: string, photo: string, screenshot: string): (r: (string, string))
    ensures r.1 != "" ==> mode in {"photo+screenshot", "screenshot+photo"}
    ensures r.0 != "" && r.0 == photo && r.0 != screenshot ==>
              mode in {"photo+screenshot"} || (mode == "photo" && subsystem == "PA")
  {
    if mode == "photo" && subsystem == "PA" then (photo, "")
    else if mode == "screenshot" then (screenshot, "")
    else if mode == "photo+screenshot" then (photo, screenshot)
    else if mode == "screenshot+photo" then (screenshot, photo)
    else ("", "")
  }

  /** What is set on the embed for an image and a thumbnail URL: nothing
      when both are empty, a lone thumbnail moved to the image, otherwise
      each non-empty URL in its own place. A thumbnail is never set without
      an image. */
  function Placement(image: string, thumb: string): (r: (Option<string>, Option<string>))
    ensures r.1.Some? ==> r.0.Some?
    ensures r.0.None? <==> image == "" && thumb == ""
    ensures r.0.Some? ==> r.0.value != "" && r.0.value == (if image != "" then image else thumb)
    ensures r.1.Some? <==> image != "" && thumb != ""
    ensures r.1.Some? ==> r.1.value == thumb
  {
    if image == "" && thumb == "" then (None, None)
    else if image == "" then (Some(thumb), None)
    else (Some(image), if thumb != "" then Some(thumb) else None)
  }

  /** The Discord embed: only its image and thumbnail matter here. */
  class Embed {
    var image: Option<string>
    var thumbnail: Option<string>

    constructor ()
      ensures image == None && thumbnail == None
    {
      image := None;
      thumbnail := None;
    }

    method SetImage(url: string)
      modifies this
      ensures image == Some(url) && thumbnail == old(thumbnail)
    {
      image := Some(url);
    }

    method SetThumbnail(url: string)
      modifies this
      ensures thumbnail == Some(url) && image == old(image)
    {
      thumbnail := Some(url);
    }
  }

  /** The `KeyError` of reading `config['DISCORD_MEDIA']` when the key is
      absent. */
  datatype MediaError = MissingMediaKey

  /** `attach_media`. */
  method AttachMedia(cfg: PfConfig, subsystem: string, photo: string, screenshot: string, embed: Embed)
    returns (err: Option<MediaError>)
    modifies embed
    ensures "DISCORD_MEDIA" !in cfg.settings ==>
              err == Some(MissingMediaKey) && embed.image == old(embed.image) && embed.thumbnail == old(embed.thumbnail)
    ensures "DISCORD_MEDIA" in cfg.settings ==> err == None
    ensures "DISCORD_MEDIA" in cfg.settings ==>
              var mode := cfg.settings["DISCORD_MEDIA"];
              var c := Candidates(mode, subsystem, photo, screenshot);
              var p := Placement(c.0, c.1);
              && embed.image == (if p.0.Some? then p.0 else old(embed.image))
              && embed.thumbnail == (if p.1.Some? then p.1 else old(embed.thumbnail))
  {
    var mediaMode := Setting(cfg, "DISCORD_MEDIA");
    if "DISCORD_MEDIA" !in cfg.settings {
      return Some(MissingMediaKey);
    }
    err := None;
    if mediaMode == "" {
      return;
    }
    var imageUrl := "";
    var thumbUrl := "";
    if mediaMode == "photo" && subsystem == "PA" {
      imageUrl := photo;
    } else if mediaMode == "screenshot" {
      imageUrl := screenshot;
    } else if mediaMode == "photo+screenshot" {
      imageUrl := photo;
      thumbUrl := screenshot;
    } else if mediaMode == "screenshot+photo" {
      imageUrl := screenshot;
      thumbUrl := photo;
    }
    if imageUrl == "" && thumbUrl == "" {
      return;
    }
    if imageUrl == "" && thumbUrl != "" {
      imageUrl := thumbUrl;
      thumbUrl := "";
    }
    if imageUrl != "" {
      embed.SetImage(imageUrl);
    }
    if thumbUrl != "" {
      embed.SetThumbnail(thumbUrl);
    }
  }
}
