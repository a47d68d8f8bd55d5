/**
 Planning a settings update as a list of UCI changes (`agent/src/wifi.rs`), for any table of
 settings whose option paths never meet. `WifiPlan` supplies the Wi-Fi table.
 */
module UciPlan {
  import opened Prelude
  import opened UciTransaction

  datatype Json = Str(text: string) | Bool(flag: bool) | Num(n: nat) | Other

  /** One member of the request object; member names of an object are distinct. */
  datatype Entry = Entry(name: string, value: Json)

  datatype PlanError =
    | EmptyOrOversized
    | UnknownSetting(name: string)
    | Unsupported(name: string)
    | Unavailable(name: string)
    | InvalidType(name: string)
    | ControlCharacter(name: string)
    | OutsideSupported(name: string)

  /**
   The settings an update may name, the option paths each is written at, the values that stand for
   "keep what is there", and the text a requested value is written as.
   */
  datatype Schema = Schema(
    known: string -> bool,
    paths: string -> seq<string>,
    masked: Entry -> bool,
    text: Entry -> Result<string, PlanError>)

  predicate Distinct<T(==)>(xs: seq<T>) {
    forall i, j :: 0 <= i < j < |xs| ==> xs[i] != xs[j]
  }

  /** No setting lists a path twice and no path belongs to two settings. */
  ghost predicate PathsNeverMeet(schema: Schema) {
    && (forall n :: Distinct(schema.paths(n)))
    && (forall n1, n2, p :: p in schema.paths(n1) && p in schema.paths(n2) ==> n1 == n2)
  }

  function PathChanges(name: string, paths: seq<string>, after: string, cfg: Values): Result<seq<Change>, PlanError> {
    if paths == [] then Ok([])
    else if paths[0] !in cfg then Err(Unavailable(name))
    else match PathChanges(name, paths[1..], after, cfg)
      case Err(e) => Err(e)
      case Ok(rest) =>
        Ok(if cfg[paths[0]] == after then rest else [Change(paths[0], cfg[paths[0]], after)] + rest)
  }

  function EntryChanges(schema: Schema, e: Entry, cfg: Values): Result<seq<Change>, PlanError> {
    var paths := schema.paths(e.name);
    if !schema.known(e.name) then Err(UnknownSetting(e.name))
    else if paths == [] then Err(Unsupported(e.name))
    else if schema.masked(e) then Ok([])
    else match schema.text(e)
      case Err(error) => Err(error)
      case Ok(after) => PathChanges(e.name, paths, after, cfg)
  }

  function EntriesChanges(schema: Schema, entries: seq<Entry>, cfg: Values): Result<seq<Change>, PlanError> {
    if entries == [] then Ok([])
    else match EntriesChanges(schema, entries[..|entries| - 1], cfg)
      case Err(error) => Err(error)
      case Ok(front) =>
        match EntryChanges(schema, entries[|entries| - 1], cfg)
        case Err(error) => Err(error)
        case Ok(last) => Ok(front + last)
  }

  function FindChange(changes: seq<Change>, key: string): Option<Change> {
    if changes == [] then None
    else if changes[0].key == key then Some(changes[0])
    else FindChange(changes[1..], key)
  }

  // ---------------------------------------------------------------------------
  // What a plan contains
  // ---------------------------------------------------------------------------

  predicate DistinctKeys(changes: seq<Change>) {
    forall i, j :: 0 <= i < j < |changes| ==> changes[i].key != changes[j].key
  }

  predicate DistinctNames(entries: seq<Entry>) {
    forall i, j :: 0 <= i < j < |entries| ==> entries[i].name != entries[j].name
  }

  predicate Changed(changes: seq<Change>, key: string) {
    exists i :: 0 <= i < |changes| && changes[i].key == key
  }

  /** The changes are exactly what takes `paths` from the snapshot to `after`. */
  ghost predicate Carries(changes: seq<Change>, paths: seq<string>, after: string, cfg: Values) {
    && DistinctKeys(changes)
    && (forall i :: 0 <= i < |changes| ==>
          && changes[i].key in paths && changes[i].after == after != changes[i].before
          && changes[i].key in cfg && cfg[changes[i].key] == changes[i].before)
    && (forall p :: p in paths ==> p in cfg && (cfg[p] == after || Changed(changes, p)))
  }

  lemma {:induction false} PathChangesSound(name: string, paths: seq<string>, after: string, cfg: Values)
    requires Distinct(paths) && PathChanges(name, paths, after, cfg).Ok?
    ensures var changes := PathChanges(name, paths, after, cfg).value;
            && DistinctKeys(changes)
            && forall i :: 0 <= i < |changes| ==>
                 && changes[i].key in paths && changes[i].after == after != changes[i].before
                 && changes[i].key in cfg && cfg[changes[i].key] == changes[i].before
  {
    if paths != [] {
      PathChangesSound(name, paths[1..], after, cfg);
      assert forall k :: 1 <= k < |paths| ==> paths[k] == paths[1..][k - 1];
      assert paths[0] !in paths[1..];
    }
  }

  lemma {:induction false} PathChangesComplete(name: string, paths: seq<string>, after: string, cfg: Values)
    requires PathChanges(name, paths, after, cfg).Ok?
    ensures var changes := PathChanges(name, paths, after, cfg).value;
            forall p :: p in paths ==> p in cfg && (cfg[p] == after || Changed(changes, p))
  {
    if paths != [] {
      PathChangesComplete(name, paths[1..], after, cfg);
      var rest := PathChanges(name, paths[1..], after, cfg).value;
      if cfg[paths[0]] != after {
        ChangedInBoth([Change(paths[0], cfg[paths[0]], after)], rest);
        assert [Change(paths[0], cfg[paths[0]], after)][0].key == paths[0];
      }
      assert paths == [paths[0]] + paths[1..];
    }
  }

  lemma PathChangesCarry(name: string, paths: seq<string>, after: string, cfg: Values)
    requires Distinct(paths)
    ensures var r := PathChanges(name, paths, after, cfg); r.Ok? ==> Carries(r.value, paths, after, cfg)
  {
    if PathChanges(name, paths, after, cfg).Ok? {
      PathChangesSound(name, paths, after, cfg);
      PathChangesComplete(name, paths, after, cfg);
    }
  }

  /** What one entry contributes: nothing when masked, otherwise its value at each of its paths. */
  ghost predicate Contributes(schema: Schema, changes: seq<Change>, e: Entry, cfg: Values) {
    if schema.masked(e) then changes == []
    else schema.text(e).Ok?
         && Carries(changes, schema.paths(e.name), schema.text(e).value, cfg)
  }

  lemma EntryContributes(schema: Schema, e: Entry, cfg: Values)
    requires PathsNeverMeet(schema)
    requires EntryChanges(schema, e, cfg).Ok?
    ensures Contributes(schema, EntryChanges(schema, e, cfg).value, e, cfg)
  {
    if !schema.masked(e) {
      PathChangesCarry(e.name, schema.paths(e.name), schema.text(e).value, cfg);
    }
  }

  /** The entry asks for `value` at `path`. */
  ghost predicate Asks(schema: Schema, e: Entry, path: string, value: string) {
    !schema.masked(e) && path in schema.paths(e.name) && schema.text(e) == Ok(value)
  }

  /** Every change is asked for by some entry and starts from the snapshot's value. */
  ghost predicate Sound(schema: Schema, changes: seq<Change>, entries: seq<Entry>, cfg: Values) {
    forall i :: 0 <= i < |changes| ==>
      && changes[i].key in cfg && cfg[changes[i].key] == changes[i].before && changes[i].before != changes[i].after
      && exists k :: 0 <= k < |entries| && Asks(schema, entries[k], changes[i].key, changes[i].after)
  }

  /** Every value the entry asks for is the snapshot's already or is planned. */
  ghost predicate Covered(schema: Schema, changes: seq<Change>, e: Entry, cfg: Values) {
    !schema.masked(e) ==>
      && schema.text(e).Ok?
      && forall p :: p in schema.paths(e.name) ==>
           && p in cfg
           && (cfg[p] == schema.text(e).value || Changed(changes, p))
  }

  lemma {:induction false} EntriesSound(schema: Schema, entries: seq<Entry>, cfg: Values)
    requires PathsNeverMeet(schema)
    requires EntriesChanges(schema, entries, cfg).Ok?
    ensures Sound(schema, EntriesChanges(schema, entries, cfg).value, entries, cfg)
  {
    if entries != [] {
      var front, e := entries[..|entries| - 1], entries[|entries| - 1];
      EntriesSound(schema, front, cfg);
      EntryContributes(schema, e, cfg);
      var before, last := EntriesChanges(schema, front, cfg).value, EntryChanges(schema, e, cfg).value;
      var all := before + last;
      forall i | 0 <= i < |all|
        ensures exists k :: 0 <= k < |entries| && Asks(schema, entries[k], all[i].key, all[i].after)
      {
        if i < |before| {
          var k :| 0 <= k < |front| && Asks(schema, front[k], before[i].key, before[i].after);
          assert Asks(schema, entries[k], all[i].key, all[i].after);
        } else {
          assert Asks(schema, entries[|entries| - 1], all[i].key, all[i].after);
        }
      }
    }
  }

  lemma CoveredBySuperset(schema: Schema, changes: seq<Change>, more: seq<Change>, e: Entry, cfg: Values)
    requires Covered(schema, changes, e, cfg)
    requires forall p :: Changed(changes, p) ==> Changed(more, p)
    ensures Covered(schema, more, e, cfg)
  {
  }

  lemma ChangedInBoth(front: seq<Change>, last: seq<Change>)
    ensures forall p :: Changed(front, p) ==> Changed(front + last, p)
    ensures forall p :: Changed(last, p) ==> Changed(front + last, p)
  {
    var all := front + last;
    forall p | Changed(front, p) ensures Changed(all, p) {
      var i :| 0 <= i < |front| && front[i].key == p;
      assert all[i].key == p;
    }
    forall p | Changed(last, p) ensures Changed(all, p) {
      var i :| 0 <= i < |last| && last[i].key == p;
      assert all[|front| + i].key == p;
    }
  }

  lemma ContributionCovers(schema: Schema, changes: seq<Change>, e: Entry, cfg: Values)
    requires Contributes(schema, changes, e, cfg)
    ensures Covered(schema, changes, e, cfg)
  {
  }

  lemma {:induction false} EntryCovered(schema: Schema, entries: seq<Entry>, cfg: Values, k: nat)
    requires PathsNeverMeet(schema)
    requires EntriesChanges(schema, entries, cfg).Ok? && k < |entries|
    ensures Covered(schema, EntriesChanges(schema, entries, cfg).value, entries[k], cfg)
  {
    var front, e := entries[..|entries| - 1], entries[|entries| - 1];
    var before, last := EntriesChanges(schema, front, cfg).value, EntryChanges(schema, e, cfg).value;
    ChangedInBoth(before, last);
    if k < |front| {
      EntryCovered(schema, front, cfg, k);
      CoveredBySuperset(schema, before, before + last, front[k], cfg);
    } else {
      EntryContributes(schema, e, cfg);
      ContributionCovers(schema, last, e, cfg);
      CoveredBySuperset(schema, last, before + last, e, cfg);
    }
  }

  lemma {:induction false} EntriesDistinct(schema: Schema, entries: seq<Entry>, cfg: Values)
    requires PathsNeverMeet(schema)
    requires DistinctNames(entries) && EntriesChanges(schema, entries, cfg).Ok?
    ensures DistinctKeys(EntriesChanges(schema, entries, cfg).value)
  {
    if entries != [] {
      var front, e := entries[..|entries| - 1], entries[|entries| - 1];
      EntriesDistinct(schema, front, cfg);
      EntriesSound(schema, front, cfg);
      EntryContributes(schema, e, cfg);
      var before, last := EntriesChanges(schema, front, cfg).value, EntryChanges(schema, e, cfg).value;
      forall i, j | 0 <= i < |before| && 0 <= j < |last| ensures before[i].key != last[j].key {
        var k :| 0 <= k < |front| && Asks(schema, front[k], before[i].key, before[i].after);
        assert front[k] == entries[k];
        assert front[k].name != e.name;
      }
    }
  }

  // ---------------------------------------------------------------------------
  // What carrying out a plan leaves
  // ---------------------------------------------------------------------------

  /** The snapshot was read from these live values. */
  ghost predicate Snapshot(cfg: Values, live: Values) {
    forall p :: p in cfg ==> p in live && live[p] == cfg[p]
  }

  ghost predicate AskedFor(schema: Schema, entries: seq<Entry>, path: string) {
    exists k :: 0 <= k < |entries| && !schema.masked(entries[k]) && path in schema.paths(entries[k].name)
  }

  /** `after` is `live` with every requested option at its requested value and nothing else touched. */
  ghost predicate CarriedOut(schema: Schema, entries: seq<Entry>, live: Values, after: Values) {
    && after.Keys == live.Keys
    && (forall k, p :: 0 <= k < |entries| && !schema.masked(entries[k]) && p in schema.paths(entries[k].name) ==>
          && p in after && schema.text(entries[k]) == Ok(after[p]))
    && (forall p :: p in live && !AskedFor(schema, entries, p) ==> after[p] == live[p])
  }

  lemma PlanIsSound(schema: Schema, entries: seq<Entry>, cfg: Values)
    requires PathsNeverMeet(schema)
    requires DistinctNames(entries) && EntriesChanges(schema, entries, cfg).Ok?
    ensures var changes := EntriesChanges(schema, entries, cfg).value;
            DistinctKeys(changes) && Sound(schema, changes, entries, cfg)
            && forall k :: 0 <= k < |entries| ==> Covered(schema, changes, entries[k], cfg)
  {
    EntriesDistinct(schema, entries, cfg);
    EntriesSound(schema, entries, cfg);
    forall k | 0 <= k < |entries| ensures Covered(schema, EntriesChanges(schema, entries, cfg).value, entries[k], cfg) {
      EntryCovered(schema, entries, cfg, k);
    }
  }

  lemma UnchangedOutsidePlan(changes: seq<Change>, live: Values, p: string)
    requires p in live && !Changed(changes, p)
    ensures p in Overlay(live, changes) && Overlay(live, changes)[p] == live[p]
  {
    OverlayIsMerge(live, changes);
    WantedKeys(changes);
  }

  lemma ChangedToAfter(changes: seq<Change>, live: Values, i: nat)
    requires DistinctKeys(changes) && i < |changes|
    ensures changes[i].key in Overlay(live, changes) && Overlay(live, changes)[changes[i].key] == changes[i].after
  {
    OverlayIsMerge(live, changes);
    WantedValues(changes, i);
  }

  lemma RequestedValueReached(schema: Schema, entries: seq<Entry>, cfg: Values, live: Values, k: nat, p: string)
    requires PathsNeverMeet(schema)
    requires DistinctNames(entries) && EntriesChanges(schema, entries, cfg).Ok? && Snapshot(cfg, live)
    requires k < |entries| && !schema.masked(entries[k]) && p in schema.paths(entries[k].name)
    ensures var after := Overlay(live, EntriesChanges(schema, entries, cfg).value);
            p in after && schema.text(entries[k]) == Ok(after[p])
  {
    var changes := EntriesChanges(schema, entries, cfg).value;
    PlanIsSound(schema, entries, cfg);
    assert Covered(schema, changes, entries[k], cfg);
    if Changed(changes, p) {
      var i :| 0 <= i < |changes| && changes[i].key == p;
      ChangedToAfter(changes, live, i);
      var j :| 0 <= j < |entries| && Asks(schema, entries[j], p, changes[i].after);
      assert entries[j].name == entries[k].name;
      assert j == k;
    } else {
      UnchangedOutsidePlan(changes, live, p);
    }
  }

  lemma UnaskedValueStays(schema: Schema, entries: seq<Entry>, cfg: Values, live: Values, p: string)
    requires PathsNeverMeet(schema)
    requires DistinctNames(entries) && EntriesChanges(schema, entries, cfg).Ok? && Snapshot(cfg, live)
    requires p in live && !AskedFor(schema, entries, p)
    ensures var after := Overlay(live, EntriesChanges(schema, entries, cfg).value);
            p in after && after[p] == live[p]
  {
    var changes := EntriesChanges(schema, entries, cfg).value;
    EntriesSound(schema, entries, cfg);
    UnchangedOutsidePlan(changes, live, p);
  }

  lemma PlanMatches(schema: Schema, entries: seq<Entry>, cfg: Values, live: Values)
    requires PathsNeverMeet(schema)
    requires EntriesChanges(schema, entries, cfg).Ok? && Snapshot(cfg, live)
    ensures var changes := EntriesChanges(schema, entries, cfg).value;
            Matches(live, changes) && Overlay(live, changes).Keys == live.Keys
  {
    var changes := EntriesChanges(schema, entries, cfg).value;
    EntriesSound(schema, entries, cfg);
    OverlayIsMerge(live, changes);
    WantedKeys(changes);
  }

  /** Writing a plan over the values it was read from carries out the request and nothing more. */
  lemma PlanCarriesOutRequest(schema: Schema, entries: seq<Entry>, cfg: Values, live: Values)
    requires PathsNeverMeet(schema)
    requires DistinctNames(entries) && EntriesChanges(schema, entries, cfg).Ok? && Snapshot(cfg, live)
    ensures Matches(live, EntriesChanges(schema, entries, cfg).value)
    ensures CarriedOut(schema, entries, live, Overlay(live, EntriesChanges(schema, entries, cfg).value))
  {
    hide EntriesChanges, Overlay, Snapshot, DistinctNames;
    PlanMatches(schema, entries, cfg, live);
    var after := Overlay(live, EntriesChanges(schema, entries, cfg).value);
    forall k, p | 0 <= k < |entries| && !schema.masked(entries[k]) && p in schema.paths(entries[k].name)
      ensures p in after && schema.text(entries[k]) == Ok(after[p])
    {
      RequestedValueReached(schema, entries, cfg, live, k, p);
    }
    forall p | p in live && !AskedFor(schema, entries, p) ensures after[p] == live[p] {
      UnaskedValueStays(schema, entries, cfg, live, p);
    }
  }

  lemma {:induction false} FindChangeIsOverlaid(changes: seq<Change>, live: Values, key: string)
    requires DistinctKeys(changes) && key in live
    ensures key in Overlay(live, changes)
    ensures Overlay(live, changes)[key] == match FindChange(changes, key) case Some(c) => c.after case None => live[key]
  {
    FindChangeFinds(changes, key);
    if i :| 0 <= i < |changes| && changes[i].key == key {
      ChangedToAfter(changes, live, i);
    } else {
      UnchangedOutsidePlan(changes, live, key);
    }
  }

  lemma {:induction false} FindChangeFinds(changes: seq<Change>, key: string)
    requires DistinctKeys(changes)
    ensures match FindChange(changes, key)
            case Some(c) => c in changes && c.key == key
            case None => !Changed(changes, key)
    ensures forall i :: 0 <= i < |changes| && changes[i].key == key ==> FindChange(changes, key) == Some(changes[i])
  {
    if changes != [] && changes[0].key != key {
      FindChangeFinds(changes[1..], key);
      assert forall i :: 1 <= i < |changes| ==> changes[i] == changes[1..][i - 1];
    }
  }

  method PlanChanges(schema: Schema, entries: seq<Entry>, cfg: Values) returns (r: Result<seq<Change>, PlanError>)
    ensures r == EntriesChanges(schema, entries, cfg)
  {
    var changes := [];
    for k := 0 to |entries|
      invariant EntriesChanges(schema, entries[..k], cfg) == Ok(changes)
      invariant forall e ::
                  EntriesChanges(schema, entries[..k], cfg) == Err(e) ==> EntriesChanges(schema, entries, cfg) == Err(e)
    {
      assert entries[..k + 1][..k] == entries[..k];
      var e := entries[k];
      var found := EntryChanges(schema, e, cfg);
      if found.Err? {
        ErrorStays(schema, entries, cfg, k + 1);
        return Err(found.error);
      }
      changes := changes + found.value;
    }
    assert entries[..|entries|] == entries;
    return Ok(changes);
  }

  lemma {:induction false} ErrorStays(schema: Schema, entries: seq<Entry>, cfg: Values, k: nat)
    requires k <= |entries| && EntriesChanges(schema, entries[..k], cfg).Err?
    ensures EntriesChanges(schema, entries, cfg) == EntriesChanges(schema, entries[..k], cfg)
  {
    if k < |entries| {
      var front := entries[..|entries| - 1];
      assert front[..k] == entries[..k];
      ErrorStays(schema, front, cfg, k);
    } else {
      assert entries[..k] == entries;
    }
  }
}
