/**
 From a Wi-Fi settings request to the list of UCI changes that carries it out (`agent/src/wifi.rs`),
 and what running that list as one transaction leaves on the device.
 */
module WifiPlan {
  import opened Prelude
  import opened Text
  import opened UciTransaction
  import opened UciPlan

  const ONOFF := "wifi_onoff"
  const WIFI6 := "wifi6_switch"
  const MASKED_KEY := "••••••••"

  /** Every setting and the option paths it may write; the first sixteen have one path each. */
  const PATHS: seq<(string, string)> := [
    ("ssid_2g", "wireless.main_2g.ssid"),
    ("ssid_5g", "wireless.main_5g.ssid"),
    ("key_2g", "wireless.main_2g.key"),
    ("key_5g", "wireless.main_5g.key"),
    ("encryption_2g", "wireless.main_2g.encryption"),
    ("encryption_5g", "wireless.main_5g.encryption"),
    ("hidden_2g", "wireless.main_2g.hidden"),
    ("hidden_5g", "wireless.main_5g.hidden"),
    ("channel_2g", "wireless.wifi0.channel"),
    ("channel_5g", "wireless.wifi1.channel"),
    ("txpower_2g", "wireless.wifi0.txpowerpercent"),
    ("txpower_5g", "wireless.wifi1.txpowerpercent"),
    ("htmode_2g", "wireless.wifi0.htmode"),
    ("htmode_5g", "wireless.wifi1.htmode"),
    ("radio2_disabled", "wireless.wifi0.disabled"),
    ("radio5_disabled", "wireless.wifi1.disabled"),
    (ONOFF, "wireless.zte_mbb.wifi_onoff"),
    (ONOFF, "zte_mbb.wifi.wifi_onoff"),
    (ONOFF, "wireless.zte_mbb.wifi_onoff_by_user"),
    (WIFI6, "wireless.zte_mbb.wifi6_switch"),
    (WIFI6, "zte_mbb.wifi.wifi6_switch")]

  const FIELDS := 16

  /** `cfg.get`: an option of the wireless package, empty when absent. */
  function Get(cfg: Values, tail: string): string {
    var path := WIRELESS + tail;
    if path in cfg then cfg[path] else ""
  }

  // ---------------------------------------------------------------------------
  // Values
  // ---------------------------------------------------------------------------

  function BandwidthOptions(hwmode: string, standards: string, is5g: bool): seq<string> {
    var mode := Lower(hwmode);
    var pieces := Split(standards, ',');
    var supported := set i | 0 <= i < |pieces| :: Lower(Trim(pieces[i]));
    var prefix :=
      if Contains(mode, "be") || "be" in supported then "EHT"
      else if Contains(mode, "ax") || "ax" in supported then "HE"
      else if is5g && (Contains(mode, "ac") || "ac" in supported) then "VHT"
      else "HT";
    if is5g then [prefix + "20", prefix + "40", prefix + "80", prefix + "160"]
    else [prefix + "20", prefix + "40"]
  }

  function TextOf(value: Json): Option<string> {
    match value
    case Str(text) => Some(text)
    case Bool(flag) => Some(if flag then "1" else "0")
    case Num(n) => if n < U64_SIZE then Some(DecimalText(n)) else None
    case Other => None
  }

  const SSID_FORBIDDEN: set<char> := {'\'', '"', ';', '$', '`', '\\', '|', '<', '>', '&'}
  const ENCRYPTIONS: set<string> :=
    {"none", "psk2", "psk2+ccmp", "psk2+aes", "psk3", "psk3-mixed", "sae", "sae-mixed"}
  const CHANNELS_5G: set<nat> :=
    {36, 40, 44, 48, 52, 56, 60, 64, 100, 104, 108, 112, 116, 120, 124, 128, 132, 136, 140, 144, 149,
     153, 157, 161, 165}

  predicate Supported(name: string, text: string, cfg: Values) {
    if StartsWith(name, "ssid_") then
      1 <= Utf8Length(text) <= 32 && forall c :: c in text ==> c !in SSID_FORBIDDEN
    else if StartsWith(name, "key_") then
      8 <= Utf8Length(text) <= 63 || (|text| == 64 && forall c :: c in text ==> IsHexDigit(c))
    else if StartsWith(name, "encryption_") then text in ENCRYPTIONS
    else if StartsWith(name, "txpower_") then
      var n := ParseUnsigned(text, 256);
      n.Some? && 1 <= n.value <= 100
    else if StartsWith(name, "channel_") then
      var n := ParseUnsigned(text, 0x1_0000);
      || text == "auto" || text == "0"
      || (n.Some? && if EndsWith(name, "2g") then 1 <= n.value <= 13 else n.value in CHANNELS_5G)
    else if StartsWith(name, "htmode_") then
      var radio := if EndsWith(name, "2g") then "wifi0" else "wifi1";
      text in BandwidthOptions(Get(cfg, radio + ".hwmode"), Get(cfg, radio + ".SupportedStandards"),
                               EndsWith(name, "5g"))
    else text == "0" || text == "1"
  }

  function WifiValue(name: string, value: Json, cfg: Values): Result<string, PlanError> {
    match TextOf(value)
    case None => Err(InvalidType(name))
    case Some(text) =>
      if exists c :: c in text && IsControl(c) then Err(ControlCharacter(name))
      else if Supported(name, text, cfg) then Ok(text)
      else Err(OutsideSupported(name))
  }

  // ---------------------------------------------------------------------------
  // The plan
  // ---------------------------------------------------------------------------

  type Table = seq<(string, string)>

  /** The option paths from row `i` of the table on that carry `name` and exist. */
  function PathsFrom(table: Table, fields: nat, name: string, cfg: Values, i: nat): seq<string>
    requires i <= |table|
    decreases |table| - i
  {
    if i == |table| then []
    else if table[i].0 == name && (i < fields || table[i].1 in cfg) then
      [table[i].1] + PathsFrom(table, fields, name, cfg, i + 1)
    else PathsFrom(table, fields, name, cfg, i + 1)
  }

  /** A global switch is written wherever the firmware has it; a field has exactly one place. */
  function PathsFor(name: string, cfg: Values): seq<string> {
    PathsFrom(PATHS, FIELDS, name, cfg, 0)
  }

  predicate Known(name: string) {
    exists i :: 0 <= i < |PATHS| && PATHS[i].0 == name
  }

  predicate IsMasked(e: Entry) {
    StartsWith(e.name, "key_") && e.value == Str(MASKED_KEY)
  }

  function WifiSchema(cfg: Values): Schema {
    Schema(n => Known(n), n => PathsFor(n, cfg), e => IsMasked(e), (e: Entry) => WifiValue(e.name, e.value, cfg))
  }

  /** The value an option of the main network will have once the changes are made. */
  function Effective(changes: seq<Change>, cfg: Values, tail: string): string {
    match FindChange(changes, WIRELESS + tail)
    case Some(change) => change.after
    case None => Get(cfg, tail)
  }

  predicate Names(entries: seq<Entry>, name: string) {
    exists i :: 0 <= i < |entries| && entries[i].name == name
  }

  /** A request that touches a band's encryption or key leaves it with a usable key, or open. */
  function BandProblem(entries: seq<Entry>, changes: seq<Change>, cfg: Values, band: string): Option<PlanError> {
    if !Names(entries, "encryption_" + band) && !Names(entries, "key_" + band) then None
    else if Effective(changes, cfg, "main_" + band + ".encryption") == "none" then None
    else match WifiValue("key_" + band, Str(Effective(changes, cfg, "main_" + band + ".key")), cfg)
      case Ok(_) => None
      case Err(error) => Some(error)
  }

  function Plan(entries: seq<Entry>, cfg: Values): Result<seq<Change>, PlanError> {
    if entries == [] || |entries| > FIELDS + 2 then Err(EmptyOrOversized)
    else match EntriesChanges(WifiSchema(cfg), entries, cfg)
      case Err(error) => Err(error)
      case Ok(changes) =>
        var problem2g := BandProblem(entries, changes, cfg, "2g");
        var problem5g := BandProblem(entries, changes, cfg, "5g");
        if problem2g.Some? then Err(problem2g.value)
        else if problem5g.Some? then Err(problem5g.value)
        else Ok(changes)
  }

  // ---------------------------------------------------------------------------
  // The paths of different settings never meet
  // ---------------------------------------------------------------------------

  /** Length and two characters that tell the option paths apart. */
  const FINGERPRINTS: seq<(nat, char, char)> := [
      (21, '_', '2'), (21, '_', '5'), (20, '_', '2'), (20, '_', '5'), (27, '_', '2'),
      (27, '_', '5'), (23, '_', '2'), (23, '_', '5'), (22, '0', '.'), (22, '1', '.'),
      (29, '0', '.'), (29, '1', '.'), (21, '0', '.'), (21, '1', '.'), (23, '0', '.'),
      (23, '1', '.'), (27, 'm', 'b'), (23, 'w', 'i'), (35, 'm', 'b'), (29, 'm', 'b'),
      (25, 'w', 'i')]

  lemma FingerprintsHold(i: nat)
    requires i < |PATHS|
    ensures |FINGERPRINTS| == |PATHS| && |PATHS[i].1| >= 20
    ensures FINGERPRINTS[i] == (|PATHS[i].1|, PATHS[i].1[13], PATHS[i].1[14])
  {
  }

  predicate DistinctPaths(table: Table) {
    forall i, j :: 0 <= i < j < |table| ==> table[i].1 != table[j].1
  }

  lemma WifiPathsDistinct()
    ensures DistinctPaths(PATHS)
  {
    forall i, j | 0 <= i < j < |PATHS| ensures PATHS[i].1 != PATHS[j].1 {
      FingerprintsHold(i);
      FingerprintsHold(j);
    }
  }

  lemma {:induction false} PathsOwned(table: Table, fields: nat, name: string, cfg: Values, i: nat)
    requires i <= |table| && DistinctPaths(table)
    ensures forall p :: p in PathsFrom(table, fields, name, cfg, i) ==>
              exists j :: i <= j < |table| && table[j] == (name, p)
    ensures Distinct(PathsFrom(table, fields, name, cfg, i))
    decreases |table| - i
  {
    if i < |table| {
      PathsOwned(table, fields, name, cfg, i + 1);
      var rest := PathsFrom(table, fields, name, cfg, i + 1);
      if table[i].0 == name {
        assert table[i] == (name, table[i].1);
        assert table[i].1 !in rest;
      }
    }
  }

  lemma PathsNeverMeetInTable(table: Table, fields: nat, n1: string, n2: string, cfg: Values, path: string)
    requires DistinctPaths(table)
    requires path in PathsFrom(table, fields, n1, cfg, 0) && path in PathsFrom(table, fields, n2, cfg, 0)
    ensures n1 == n2
  {
    PathsOwned(table, fields, n1, cfg, 0);
    PathsOwned(table, fields, n2, cfg, 0);
    var i :| 0 <= i < |table| && table[i] == (n1, path);
    var j :| 0 <= j < |table| && table[j] == (n2, path);
    assert i == j;
  }

  lemma WifiPathsNeverMeet(cfg: Values)
    ensures PathsNeverMeet(WifiSchema(cfg))
  {
    var schema := WifiSchema(cfg);
    WifiPathsDistinct();
    forall n ensures Distinct(schema.paths(n)) {
      PathsOwned(PATHS, FIELDS, n, cfg, 0);
    }
    forall n1, n2, p | p in schema.paths(n1) && p in schema.paths(n2) ensures n1 == n2 {
      PathsNeverMeetInTable(PATHS, FIELDS, n1, n2, cfg, p);
    }
  }

  // ---------------------------------------------------------------------------
  // What an accepted update leaves
  // ---------------------------------------------------------------------------

  lemma PlannedChanges(entries: seq<Entry>, cfg: Values)
    requires Plan(entries, cfg).Ok?
    ensures EntriesChanges(WifiSchema(cfg), entries, cfg) == Plan(entries, cfg)
    ensures forall band :: band == "2g" || band == "5g" ==>
              BandProblem(entries, Plan(entries, cfg).value, cfg, band).None?
  {
  }

  /** Writing a plan over the values it was read from carries out the request and nothing more. */
  lemma PlanCarriesOutUpdate(entries: seq<Entry>, cfg: Values, live: Values)
    requires DistinctNames(entries) && Plan(entries, cfg).Ok? && Snapshot(cfg, live)
    ensures Matches(live, Plan(entries, cfg).value)
    ensures CarriedOut(WifiSchema(cfg), entries, live, Overlay(live, Plan(entries, cfg).value))
  {
    PlannedChanges(entries, cfg);
    WifiPathsNeverMeet(cfg);
    PlanCarriesOutRequest(WifiSchema(cfg), entries, cfg, live);
  }

  const WIRELESS := "wireless."

  /** The snapshot shows an option exactly as the device has it, absent ones included. */
  ghost predicate Shown(cfg: Values, live: Values, tail: string) {
    WIRELESS + tail in cfg <==> WIRELESS + tail in live
  }

  lemma EffectiveIsOverlaid(changes: seq<Change>, cfg: Values, live: Values, tail: string)
    requires DistinctKeys(changes) && Matches(live, changes) && Snapshot(cfg, live) && Shown(cfg, live, tail)
    ensures Get(Overlay(live, changes), tail) == Effective(changes, cfg, tail)
  {
    var path := WIRELESS + tail;
    if path in live {
      FindChangeIsOverlaid(changes, live, path);
    } else {
      FindChangeFinds(changes, path);
      OverlayIsMerge(live, changes);
      WantedKeys(changes);
    }
  }

  /**
   After an accepted update a band it secured or rekeyed is open or has a usable key. The options it
   does not change may be missing, which counts as empty: then only an open band has no key.
   */
  lemma RequestedBandStaysUsable(entries: seq<Entry>, cfg: Values, live: Values, band: string)
    requires band == "2g" || band == "5g"
    requires DistinctNames(entries) && Plan(entries, cfg).Ok? && Snapshot(cfg, live)
    requires Names(entries, "encryption_" + band) || Names(entries, "key_" + band)
    requires Shown(cfg, live, "main_" + band + ".encryption") && Shown(cfg, live, "main_" + band + ".key")
    ensures var after := Overlay(live, Plan(entries, cfg).value);
            || Get(after, "main_" + band + ".encryption") == "none"
            || (WifiValue("key_" + band, Str(Get(after, "main_" + band + ".key")), cfg).Ok?
                && WIRELESS + ("main_" + band + ".key") in after)
  {
    var changes := Plan(entries, cfg).value;
    PlannedChanges(entries, cfg);
    WifiPathsNeverMeet(cfg);
    EntriesDistinct(WifiSchema(cfg), entries, cfg);
    PlanCarriesOutUpdate(entries, cfg, live);
    EffectiveIsOverlaid(changes, cfg, live, "main_" + band + ".encryption");
    EffectiveIsOverlaid(changes, cfg, live, "main_" + band + ".key");
    EmptyIsNoKey(band, cfg);
  }

  lemma EmptyIsNoKey(band: string, cfg: Values)
    requires band == "2g" || band == "5g"
    ensures WifiValue("key_" + band, Str(""), cfg).Err?
  {
    assert ("key_" + band)[0] == 'k' && ("key_" + band)[1] == 'e';
  }

  // ---------------------------------------------------------------------------
  // The request handler
  // ---------------------------------------------------------------------------

  /**
   A Wi-Fi update: planned against the snapshot, then run as one transaction. Accepted updates are
   carried out exactly; a failed one reported as restored, or abandoned, changes nothing.
   */
  method WifiSet(entries: seq<Entry>, cfg: Values, stage: Stage, w: Weather) returns (r: Result<Outcome, PlanError>)
    requires DistinctNames(entries) && stage.staged == map[]
    modifies stage
    ensures r.Err? <==> Plan(entries, cfg).Err?
    ensures r.Err? ==> stage.live == old(stage.live)
    ensures r.Ok? && r.value.Committed? && Snapshot(cfg, old(stage.live)) ==>
              CarriedOut(WifiSchema(cfg), entries, old(stage.live), stage.live)
    ensures r.Ok? && (r.value.Abandoned? || r.value.Restored?) ==> stage.live == old(stage.live)
    ensures r.Ok? && r.value.NeedsAttention? ==>
              Between(old(stage.live), Wanted(Plan(entries, cfg).value), stage.live)
  {
    if entries == [] || |entries| > FIELDS + 2 {
      return Err(EmptyOrOversized);
    }
    var planned := PlanChanges(WifiSchema(cfg), entries, cfg);
    if planned.Err? {
      return Err(planned.error);
    }
    var changes := planned.value;
    var problem := BandProblem(entries, changes, cfg, "2g");
    if problem.None? {
      problem := BandProblem(entries, changes, cfg, "5g");
    }
    if problem.Some? {
      return Err(problem.value);
    }
    ghost var before := stage.live;
    if Snapshot(cfg, before) {
      PlanCarriesOutUpdate(entries, cfg, before);
    }
    if changes == [] {
      return Ok(Committed);
    }
    var outcome := stage.Execute(changes, w);
    return Ok(outcome);
  }
}
