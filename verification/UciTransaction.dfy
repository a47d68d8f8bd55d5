/**
 All-or-nothing changes to several UCI packages (`agent/src/uci_transaction.rs`).

 Changes are staged privately, committed package by package and reloaded; any failure sets every
 value back. The backend's outcomes are parameters: a failed set may have staged its value, and a
 failed commit may have let any of the staged values through.
 */
module UciTransaction {
  import opened Prelude
  import opened Text

  datatype Change = Change(key: string, before: string, after: string)

  type Values = map<string, string>

  datatype SetWeather = SetWeather(ok: bool, staged: bool)

  /** `through`: staged keys a failed commit still wrote; `kept`: staged keys that stay staged. */
  datatype CommitWeather = CommitWeather(ok: bool, through: set<string>, kept: set<string>)

  datatype Weather = Weather(
    firstCheck: bool,
    sets: nat -> SetWeather,
    secondCheck: bool,
    commits: string -> CommitWeather,
    reload: bool,
    undoSets: nat -> SetWeather,
    undoCommits: string -> CommitWeather,
    undoReload: bool)

  datatype Failure = SetFailed(key: string) | CommitFailed(package: string) | ReloadFailed

  /** `Abandoned` failed before any commit; the other two failed after one was attempted. */
  datatype Outcome =
    | Committed
    | Abandoned
    | Restored(cause: Failure)
    | NeedsAttention(cause: Failure, errors: seq<Failure>)

  /** The package of an option path: everything before the first dot. */
  function Package(key: string): string {
    key[..IndexOf(key, '.')]
  }

  // ---------------------------------------------------------------------------
  // The packages to commit, in the order of an ordered set
  // ---------------------------------------------------------------------------

  function InsertOrdered(xs: seq<string>, x: string): seq<string> {
    if xs == [] then [x]
    else if x == xs[0] then xs
    else if Less(x, xs[0]) then [x] + xs
    else [xs[0]] + InsertOrdered(xs[1..], x)
  }

  function Packages(changes: seq<Change>): seq<string> {
    if changes == [] then []
    else InsertOrdered(Packages(changes[..|changes| - 1]), Package(changes[|changes| - 1].key))
  }

  predicate Ascending(xs: seq<string>) {
    forall i, j :: 0 <= i < j < |xs| ==> Less(xs[i], xs[j])
  }

  lemma {:induction false} InsertOrderedMembers(xs: seq<string>, x: string)
    ensures forall y :: y in InsertOrdered(xs, x) <==> y in xs || y == x
  {
    if xs != [] && x != xs[0] && !Less(x, xs[0]) {
      InsertOrderedMembers(xs[1..], x);
      assert xs == [xs[0]] + xs[1..];
    }
  }

  lemma {:induction false} InsertOrderedAscending(xs: seq<string>, x: string)
    requires Ascending(xs)
    ensures Ascending(InsertOrdered(xs, x))
  {
    if xs == [] || x == xs[0] {
    } else if Less(x, xs[0]) {
      forall j | 0 <= j < |xs| ensures Less(x, xs[j]) {
        if j > 0 {
          LessIsTransitive(x, xs[0], xs[j]);
        }
      }
    } else {
      InsertOrderedAscending(xs[1..], x);
      InsertOrderedMembers(xs[1..], x);
      LessIsTotal(x, xs[0]);
      var rest := InsertOrdered(xs[1..], x);
      forall j | 0 <= j < |rest| ensures Less(xs[0], rest[j]) {
        assert rest[j] in rest;
        if rest[j] != x {
          var i :| 0 <= i < |xs[1..]| && xs[1..][i] == rest[j];
          assert rest[j] == xs[1 + i];
        }
      }
    }
  }

  /** Every package of the changes, each once, in ascending order. */
  lemma {:induction false} PackagesExactly(changes: seq<Change>)
    ensures Ascending(Packages(changes))
    ensures forall p :: p in Packages(changes)
              <==> exists i :: 0 <= i < |changes| && Package(changes[i].key) == p
  {
    if changes != [] {
      var front, last := changes[..|changes| - 1], changes[|changes| - 1];
      PackagesExactly(front);
      InsertOrderedAscending(Packages(front), Package(last.key));
      InsertOrderedMembers(Packages(front), Package(last.key));
      forall p | p in Packages(front)
        ensures exists i :: 0 <= i < |changes| && Package(changes[i].key) == p
      {
        var i :| 0 <= i < |front| && Package(front[i].key) == p;
        assert changes[i] == front[i];
      }
      forall i | 0 <= i < |changes| ensures Package(changes[i].key) in Packages(changes) {
        if i < |front| {
          assert changes[i] == front[i];
        }
      }
    }
  }

  // ---------------------------------------------------------------------------
  // What a transaction means
  // ---------------------------------------------------------------------------

  /** `values` with every change written, in order. */
  function Overlay(values: Values, changes: seq<Change>): Values {
    if changes == [] then values
    else Overlay(values, changes[..|changes| - 1])[changes[|changes| - 1].key := changes[|changes| - 1].after]
  }

  /** The live values are the ones the changes were planned against. */
  predicate Matches(live: Values, changes: seq<Change>) {
    forall i :: 0 <= i < |changes| ==> changes[i].key in live && live[changes[i].key] == changes[i].before
  }

  /** Every value is the old one or the wanted one. */
  predicate Between(old': Values, want: Values, now: Values) {
    && now.Keys == old'.Keys
    && forall k :: k in now ==> now[k] == old'[k] || (k in want && now[k] == want[k])
  }

  predicate StagedBetween(old': Values, want: Values, staged: Values) {
    && staged.Keys <= want.Keys <= old'.Keys
    && forall k :: k in staged ==> staged[k] == old'[k] || staged[k] == want[k]
  }

  function Wanted(changes: seq<Change>): Values {
    Overlay(map[], changes)
  }

  lemma {:induction false} WantedKeys(changes: seq<Change>)
    ensures forall k :: k in Wanted(changes) <==> exists i :: 0 <= i < |changes| && changes[i].key == k
  {
    if changes != [] {
      var front := changes[..|changes| - 1];
      WantedKeys(front);
      var last := changes[|changes| - 1];
      assert Wanted(changes) == Wanted(front)[last.key := last.after];
      forall k | k in Wanted(changes) ensures exists i :: 0 <= i < |changes| && changes[i].key == k {
        if k != last.key {
          var i :| 0 <= i < |front| && front[i].key == k;
          assert changes[i].key == k;
        } else {
          assert changes[|changes| - 1].key == k;
        }
      }
      forall i | 0 <= i < |changes| ensures changes[i].key in Wanted(changes) {
        if i < |front| {
          assert front[i] == changes[i];
        }
      }
    }
  }

  /** Writing the changes over `values` is writing their final values over it. */
  lemma {:induction false} OverlayIsMerge(values: Values, changes: seq<Change>)
    ensures Overlay(values, changes) == values + Wanted(changes)
  {
    if changes != [] {
      OverlayIsMerge(values, changes[..|changes| - 1]);
    }
  }

  /** With distinct keys every change's own value is the final one. */
  lemma {:induction false} WantedValues(changes: seq<Change>, i: nat)
    requires i < |changes|
    requires forall j, k :: 0 <= j < k < |changes| ==> changes[j].key != changes[k].key
    ensures changes[i].key in Wanted(changes) && Wanted(changes)[changes[i].key] == changes[i].after
  {
    if i < |changes| - 1 {
      WantedValues(changes[..|changes| - 1], i);
    }
  }

  /** The live values after a commit of `package`. */
  function Merge(live: Values, staged: Values, package: string, w: CommitWeather): Values {
    live + map k | k in staged && Package(k) == package && (w.ok || k in w.through) :: staged[k]
  }

  function Unstage(staged: Values, package: string, w: CommitWeather): Values {
    map k | k in staged && (Package(k) != package || k in w.kept) :: staged[k]
  }

  lemma CommitKeepsBetween(before: Values, want: Values, live: Values, staged: Values, package: string,
                           w: CommitWeather)
    requires Between(before, want, live) && StagedBetween(before, want, staged)
    ensures Between(before, want, Merge(live, staged, package, w))
    ensures StagedBetween(before, want, Unstage(staged, package, w))
  {
  }

  /** Old values are live again for the packages in `done` and staged for the others. */
  predicate BackFrom(before: Values, want: Values, live: Values, staged: Values, done: seq<string>)
    requires want.Keys <= live.Keys && want.Keys <= before.Keys && staged.Keys <= before.Keys
  {
    && (forall k :: k in staged ==> staged[k] == before[k])
    && (forall k :: k in want ==> if Package(k) in done then live[k] == before[k] else k in staged)
  }

  lemma CommitPutsBack(before: Values, want: Values, live: Values, staged: Values, done: seq<string>,
                       package: string, w: CommitWeather)
    requires Between(before, want, live) && StagedBetween(before, want, staged) && w.ok
    requires BackFrom(before, want, live, staged, done)
    ensures want.Keys <= Merge(live, staged, package, w).Keys
    ensures BackFrom(before, want, Merge(live, staged, package, w), Unstage(staged, package, w), done + [package])
  {
  }

  /** Wanted values are live for the packages in `done` and staged for the others. */
  predicate ForwardTo(before: Values, want: Values, live: Values, staged: Values, done: seq<string>) {
    && want.Keys <= before.Keys == live.Keys && staged.Keys <= want.Keys
    && (forall k :: k in live ==> live[k] == if k in want && Package(k) in done then want[k] else before[k])
    && (forall k :: k in staged ==> staged[k] == want[k])
    && (forall k :: k in want && Package(k) !in done ==> k in staged)
  }

  lemma CommitMovesForward(before: Values, want: Values, live: Values, staged: Values, done: seq<string>,
                           package: string, w: CommitWeather)
    requires ForwardTo(before, want, live, staged, done)
    ensures var live', staged' := Merge(live, staged, package, w), Unstage(staged, package, w);
            && Between(before, want, live') && StagedBetween(before, want, staged')
            && (w.ok ==> ForwardTo(before, want, live', staged', done + [package]))
  {
  }

  // ---------------------------------------------------------------------------
  // The transaction
  // ---------------------------------------------------------------------------

  predicate AllSet(sets: nat -> SetWeather, n: nat) {
    forall i: nat :: i < n ==> sets(i).ok
  }

  predicate AllCommit(commits: string -> CommitWeather, packages: seq<string>) {
    forall p :: p in packages ==> commits(p).ok
  }

  class Stage {
    var live: Values
    var staged: Values

    constructor (live: Values)
      ensures this.live == live && staged == map[]
    {
      this.live, staged := live, map[];
    }

    method Check(changes: seq<Change>, reachable: bool) returns (ok: bool)
      ensures ok <==> reachable && Matches(live, changes)
    {
      if !reachable {
        return false;
      }
      for i := 0 to |changes|
        invariant Matches(live, changes[..i])
      {
        if changes[i].key !in live || live[changes[i].key] != changes[i].before {
          return false;
        }
      }
      assert changes[..|changes|] == changes;
      return true;
    }

    method Set(key: string, value: string, w: SetWeather) returns (ok: bool)
      modifies this`staged
      ensures ok == w.ok
      ensures staged == if w.ok || w.staged then old(staged)[key := value] else old(staged)
    {
      if w.ok || w.staged {
        staged := staged[key := value];
      }
      ok := w.ok;
    }

    method Commit(package: string, w: CommitWeather) returns (ok: bool)
      modifies this
      ensures ok == w.ok
      ensures live == Merge(old(live), old(staged), package, w)
      ensures staged == Unstage(old(staged), package, w)
    {
      live := Merge(live, staged, package, w);
      staged := Unstage(staged, package, w);
      ok := w.ok;
    }

    /** Commits every package and reloads; stops at the first failure. */
    method CommitAll(packages: seq<string>, w: Weather, ghost want: Values) returns (failure: Option<Failure>)
      requires want.Keys <= live.Keys && staged == want
      requires forall k :: k in want ==> Package(k) in packages
      modifies this
      ensures failure.None? <==> AllCommit(w.commits, packages) && w.reload
      ensures failure.None? ==> live == old(live) + want
      ensures Between(old(live), want, live) && StagedBetween(old(live), want, staged)
    {
      for i := 0 to |packages|
        invariant AllCommit(w.commits, packages[..i])
        invariant ForwardTo(old(live), want, live, staged, packages[..i])
      {
        CommitMovesForward(old(live), want, live, staged, packages[..i], packages[i], w.commits(packages[i]));
        var committed := Commit(packages[i], w.commits(packages[i]));
        if !committed {
          return Some(CommitFailed(packages[i]));
        }
        assert packages[..i + 1] == packages[..i] + [packages[i]];
      }
      assert packages[..|packages|] == packages;
      return if w.reload then None else Some(ReloadFailed);
    }

    /** Stages every old value again; collects what fails. */
    method RestageAll(changes: seq<Change>, sets: nat -> SetWeather, ghost before: Values, ghost want: Values)
      returns (errors: seq<Failure>)
      requires Matches(before, changes) && StagedBetween(before, want, staged)
      requires forall i :: 0 <= i < |changes| ==> changes[i].key in want
      modifies this`staged
      ensures StagedBetween(before, want, staged)
      ensures errors == [] <==> AllSet(sets, |changes|)
      ensures errors == [] ==> forall i :: 0 <= i < |changes| ==>
                changes[i].key in staged && staged[changes[i].key] == before[changes[i].key]
    {
      errors := [];
      for i := 0 to |changes|
        invariant StagedBetween(before, want, staged)
        invariant errors == [] <==> AllSet(sets, i)
        invariant errors == [] ==> forall j :: 0 <= j < i ==>
                    changes[j].key in staged && staged[changes[j].key] == before[changes[j].key]
      {
        var set' := Set(changes[i].key, changes[i].before, sets(i));
        if !set' {
          errors := errors + [SetFailed(changes[i].key)];
        }
      }
    }

    /** Commits every package even after a failure; collects what fails. */
    method RecommitAll(packages: seq<string>, commits: string -> CommitWeather, ghost before: Values,
                       ghost want: Values)
      returns (errors: seq<Failure>)
      requires Between(before, want, live) && StagedBetween(before, want, staged)
      requires forall k :: k in want ==> Package(k) in packages
      modifies this
      ensures Between(before, want, live)
      ensures errors == [] <==> AllCommit(commits, packages)
      ensures errors == [] && BackFrom(before, want, old(live), old(staged), []) ==> live == before
    {
      errors := [];
      ghost var clean := BackFrom(before, want, live, staged, []);
      for i := 0 to |packages|
        invariant Between(before, want, live) && StagedBetween(before, want, staged)
        invariant errors == [] <==> AllCommit(commits, packages[..i])
        invariant clean && errors == [] ==> BackFrom(before, want, live, staged, packages[..i])
      {
        hide Between, StagedBetween, BackFrom;
        CommitKeepsBetween(before, want, live, staged, packages[i], commits(packages[i]));
        if clean && errors == [] && commits(packages[i]).ok {
          CommitPutsBack(before, want, live, staged, packages[..i], packages[i], commits(packages[i]));
        }
        var committed := Commit(packages[i], commits(packages[i]));
        if !committed {
          errors := errors + [CommitFailed(packages[i])];
        }
        assert packages[..i + 1] == packages[..i] + [packages[i]];
      }
      assert packages[..|packages|] == packages;
    }

    /** Sets every value back, commits again and reloads; collects what fails. */
    method Restore(changes: seq<Change>, packages: seq<string>, w: Weather, ghost before: Values, ghost want: Values)
      returns (errors: seq<Failure>)
      requires Matches(before, changes)
      requires Between(before, want, live) && StagedBetween(before, want, staged)
      requires forall k :: k in want <==> exists i :: 0 <= i < |changes| && changes[i].key == k
      requires forall k :: k in want ==> Package(k) in packages
      modifies this
      ensures Between(before, want, live)
      ensures errors == [] <==> AllSet(w.undoSets, |changes|) && AllCommit(w.undoCommits, packages) && w.undoReload
      ensures errors == [] ==> live == before
    {
      errors := RestageAll(changes, w.undoSets, before, want);
      var more := RecommitAll(packages, w.undoCommits, before, want);
      errors := errors + more;
      if !w.undoReload {
        errors := errors + [ReloadFailed];
      }
    }

    /**
     Runs the changes. `Committed` leaves exactly the old values overlaid with the changes;
     `Abandoned` and `Restored` leave exactly the old values; `NeedsAttention` leaves every changed
     key at its old or new value and touches nothing else.
     */
    method Execute(changes: seq<Change>, w: Weather) returns (outcome: Outcome)
      requires staged == map[]
      modifies this
      ensures outcome.Committed? <==>
                && w.firstCheck && Matches(old(live), changes) && AllSet(w.sets, |changes|) && w.secondCheck
                && AllCommit(w.commits, Packages(changes)) && w.reload
      ensures outcome.Committed? ==> live == Overlay(old(live), changes)
      ensures outcome.Abandoned? <==>
                !(w.firstCheck && Matches(old(live), changes) && AllSet(w.sets, |changes|) && w.secondCheck)
      ensures outcome.Abandoned? || outcome.Restored? ==> live == old(live)
      ensures outcome.Restored? || outcome.NeedsAttention? ==>
                (outcome.Restored? <==>
                  AllSet(w.undoSets, |changes|) && AllCommit(w.undoCommits, Packages(changes)) && w.undoReload)
      ensures outcome.NeedsAttention? ==> Between(old(live), Wanted(changes), live)
    {
      var unchanged' := Check(changes, w.firstCheck);
      if !unchanged' {
        return Abandoned;
      }
      for i := 0 to |changes|
        invariant live == old(live) && staged == Wanted(changes[..i]) && AllSet(w.sets, i)
      {
        var set' := Set(changes[i].key, changes[i].after, w.sets(i));
        if !set' {
          return Abandoned;
        }
        assert changes[..i + 1][..i] == changes[..i];
      }
      assert changes[..|changes|] == changes;
      unchanged' := Check(changes, w.secondCheck);
      if !unchanged' {
        return Abandoned;
      }
      var packages := Packages(changes);
      PackagesExactly(changes);
      WantedKeys(changes);
      OverlayIsMerge(live, changes);
      ghost var want := Wanted(changes);
      var failure := CommitAll(packages, w, want);
      if failure.None? {
        return Committed;
      }
      var errors := Restore(changes, packages, w, old(live), want);
      outcome := if errors == [] then Restored(failure.value) else NeedsAttention(failure.value, errors);
    }
  }
}
