/**
 Publishing a staged directory with no-replace renames, under injected faults.

 The parent directory is a partial map from names to trees. A called operation may
 raise; a rename may raise before or after it has taken effect, and a name that is
 already taken is always reported without effect. No other process writes to the
 parent. `faults` counts the operations that were made to raise, and `history` keeps
 every state the parent has had.
 */
module Publication {
  import opened Options

  type Name = string
  type Tree = nat
  type Names = map<Name, Tree>

  const MAX_ORPHAN_NAME_ATTEMPTS: nat := 128

  datatype Renaming = Moved | Taken | Failed

  datatype Role = ForStaged | ForPrevious | ForPublished

  /** A call of a caller's validator, for one of the trees, with the parent as it was. */
  datatype Validation = Validation(role: Role, names: Names)

  /** A call of the commit callback: the parent, and what had been validated before. */
  datatype Commitment = Commitment(names: Names, validations: seq<Validation>)

  function Move(names: Names, source: Name, target: Name): Names
    requires source in names
  {
    (names - {source})[target := names[source]]
  }

  function Lookup(names: Names, name: Name): Option<Tree> {
    if name in names then Some(names[name]) else None
  }

  predicate OneNameEach(names: Names) {
    forall a, b :: a in names && b in names && names[a] == names[b] ==> a == b
  }

  lemma {:induction false} MoveKeepsTrees(names: Names, source: Name, target: Name)
    requires source in names && target !in names && OneNameEach(names)
    ensures OneNameEach(Move(names, source, target))
    ensures Move(names, source, target).Values == names.Values
  {
    var moved := Move(names, source, target);
    assert moved[target] == names[source];
    forall t | t in names.Values ensures t in moved.Values {
      var n :| n in names && names[n] == t;
      if n != source {
        assert moved[n] == t;
      }
    }
  }

  lemma {:induction false} MovingBack(names: Names, source: Name, target: Name)
    requires source in names && target !in names
    ensures Move(Move(names, source, target), target, source) == names
  {
  }

  lemma {:induction false} AsOne<T>(before: seq<T>, a: seq<T>, b: seq<T>)
    ensures (before + a) + b == before + (a + b)
  {
  }

  lemma {:induction false} InGroups<T>(before: seq<T>, a: seq<T>, b: seq<T>, c: seq<T>)
    ensures (before + a) + (b + c) == before + ((a + b) + c)
  {
  }

  /** One run of the publication, from the parent directory as it was at the start. */
  class Publisher {
    const stage: Name
    const destination: Name
    ghost const start: Names

    var names: Names
    ghost var faults: nat
    ghost var history: seq<Names>
    ghost var validations: seq<Validation>
    ghost var commitments: seq<Commitment>

    constructor (parent: Names, stageName: Name, destinationName: Name)
      requires OneNameEach(parent) && stageName != destinationName
      ensures Valid() && names == parent && start == parent && faults == 0 && history == [parent]
      ensures validations == [] && commitments == []
      ensures stage == stageName && destination == destinationName
    {
      stage, destination, start := stageName, destinationName, parent;
      names, faults, history := parent, 0, [parent];
      validations, commitments := [], [];
    }

    /** What the destination may hold: the previous tree, the staged tree or nothing. */
    ghost predicate DestinationFits(h: Names) {
      Lookup(h, destination) in {None, Lookup(start, destination), Lookup(start, stage)}
    }

    /** Every tree is under exactly one name, and only the two trees of the
        publication have moved. */
    ghost predicate Fits(h: Names) {
      && OneNameEach(h) && h.Values == start.Values
      && (forall n :: n in start && n != stage && n != destination ==> n in h && h[n] == start[n])
      && DestinationFits(h)
    }

    ghost predicate Valid()
      reads this`names, this`history
    {
      && stage != destination && OneNameEach(start)
      && Fits(names)
      && history != [] && history[0] == start && history[|history| - 1] == names
      && AllFit(history)
    }

    ghost predicate AllFit(states: seq<Names>) {
      forall i :: 0 <= i < |states| ==> Fits(states[i])
    }

    lemma {:induction false} OneMoreFits(states: seq<Names>, h: Names)
      requires AllFit(states) && Fits(h)
      ensures AllFit(states + [h])
    {
    }

    /** The destination is as it was at the start. */
    ghost predicate Unchanged()
      reads this`names
    {
      Lookup(names, destination) == Lookup(start, destination)
    }

    /** Any call that only reads: it can only raise. */
    method Call() returns (ok: bool)
      requires Valid()
      modifies this`faults
      ensures Valid()
      ensures faults == old(faults) + (if ok then 0 else 1)
    {
      ok := *;
      if !ok {
        faults := faults + 1;
      }
    }

    /** A caller's validator: it, too, can only raise. */
    method Validate(role: Role) returns (ok: bool)
      requires Valid()
      modifies this`faults, this`validations
      ensures Valid() && validations == old(validations) + [Validation(role, names)]
      ensures faults == old(faults) + (if ok then 0 else 1)
    {
      validations := validations + [Validation(role, names)];
      ok := Call();
    }

    /** The commit callback. */
    method Commit() returns (ok: bool)
      requires Valid()
      modifies this`faults, this`commitments
      ensures Valid() && commitments == old(commitments) + [Commitment(names, validations)]
      ensures faults == old(faults) + (if ok then 0 else 1)
    {
      commitments := commitments + [Commitment(names, validations)];
      ok := Call();
    }

    /** `child_metadata`: the tree under a name, or nothing. */
    method Look(name: Name) returns (ok: bool, found: Option<Tree>)
      requires Valid()
      modifies this`faults
      ensures Valid()
      ensures faults == old(faults) + (if ok then 0 else 1)
      ensures ok ==> found == Lookup(names, name)
    {
      ok := Call();
      found := Lookup(names, name);
    }

    /** `_require_tree_ownership_at`: raises also when another tree, or none, is there. */
    method Require(name: Name, expected: Tree) returns (ok: bool)
      requires Valid()
      modifies this`faults
      ensures Valid()
      ensures ok ==> faults == old(faults) && Lookup(names, name) == Some(expected)
      ensures !ok ==> faults == old(faults) + 1 || (faults == old(faults) && Lookup(names, name) != Some(expected))
    {
      ok := Call();
      if ok {
        ok := Lookup(names, name) == Some(expected);
      }
    }

    /** `rename_noreplace`. */
    method Rename(source: Name, target: Name) returns (r: Renaming)
      requires Valid()
      requires source in names && target !in names ==> Fits(Move(names, source, target))
      modifies this`names, this`history, this`faults
      ensures Valid()
      ensures history == old(history) + (if names == old(names) then [] else [names])
      ensures r.Moved? ==> source in old(names) && target !in old(names)
                           && names == Move(old(names), source, target) && faults == old(faults)
      ensures r.Taken? ==> target in old(names) && names == old(names) && faults == old(faults)
      ensures r.Failed? && faults == old(faults) ==> source !in old(names) && names == old(names)
      ensures r.Failed? && faults != old(faults) ==>
                && faults == old(faults) + 1
                && (|| names == old(names)
                    || (source in old(names) && target !in old(names)
                        && names == Move(old(names), source, target)))
    {
      var fault: bool := *;
      var reached: bool := *;
      if fault && !reached {
        faults := faults + 1;
        return Failed;
      }
      if source !in names {
        return Failed;
      }
      if target in names {
        return Taken;
      }
      names := Move(names, source, target);
      OneMoreFits(history, names);
      history := history + [names];
      if fault {
        faults := faults + 1;
        return Failed;
      }
      return Moved;
    }

    lemma {:induction false} ClaimFits(h: Names, orphan: Name)
      requires Fits(h) && destination in h && orphan !in h && stage != destination
      ensures Fits(Move(h, destination, orphan))
    {
      MoveKeepsTrees(h, destination, orphan);
    }

    /** The destination has been moved to `orphan`, or nothing has. */
    ghost predicate MovedTo(before: Names, after: Names, orphan: Name)
      requires destination in before
    {
      after == before || (orphan !in before && after == Move(before, destination, orphan))
    }

    ghost predicate MovedAside(before: Names, after: Names)
      requires destination in before
    {
      exists q :: MovedTo(before, after, q)
    }

    lemma {:induction false} AsideTo(before: Names, after: Names, orphan: Name)
      requires destination in before && MovedTo(before, after, orphan)
      ensures MovedAside(before, after)
    {
    }

    /** After a rename that raised, the move, if there was one, is undone. */
    method GiveBack(ghost before: Names, orphan: Name)
      requires Valid() && destination in before && MovedTo(before, names, orphan) && Fits(before)
      modifies this`names, this`history, this`faults
      ensures Valid() && old(history) <= history && faults >= old(faults)
      ensures MovedTo(before, names, orphan)
      ensures faults == old(faults) ==> names == before
    {
      if orphan !in before {
        MovingBack(before, destination, orphan);
      }
      var back := Rename(orphan, destination);
    }

    /** `_claim_child_as_orphan`, always of the destination. Drawing only taken names
        counts as a fault of the draw. */
    method Claim() returns (orphan: Option<Name>)
      requires Valid() && destination in names
      modifies this`names, this`history, this`faults
      ensures Valid() && old(history) <= history
      ensures orphan.Some? ==> faults == old(faults) && orphan.value !in old(names)
                               && names == Move(old(names), destination, orphan.value)
      ensures orphan.None? ==> faults > old(faults)
      ensures orphan.None? && faults == old(faults) + 1 ==> names == old(names)
      ensures MovedAside(old(names), names)
    {
      ghost var before := names;
      var attempt := 0;
      while attempt < MAX_ORPHAN_NAME_ATTEMPTS
        invariant Valid() && names == before && faults == old(faults) && old(history) <= history
      {
        var drawn: Name := *;
        if drawn !in names {
          ClaimFits(names, drawn);
        }
        var r := Rename(destination, drawn);
        AsideTo(before, names, drawn);
        if r.Moved? {
          return Some(drawn);
        }
        if r.Failed? {
          GiveBack(before, drawn);
          AsideTo(before, names, drawn);
          return None;
        }
        attempt := attempt + 1;
      }
      faults := faults + 1;
      AsideTo(before, names, destination);
      return None;
    }

    /** `_quarantine_destination`. */
    method Quarantine() returns (ok: bool)
      requires Valid()
      modifies this`names, this`history, this`faults
      ensures Valid() && old(history) <= history
      ensures ok ==> faults == old(faults)
      ensures ok && destination !in old(names) ==> names == old(names)
      ensures ok && destination in old(names) ==>
                exists q :: q !in old(names) && names == Move(old(names), destination, q)
      ensures !ok ==> faults > old(faults)
    {
      var found: Option<Tree>;
      ok, found := Look(destination);
      if ok && found.Some? {
        var orphan := Claim();
        ok := orphan.Some?;
      }
    }

    lemma {:induction false} RestoreFits(h: Names, backup: Name)
      requires Fits(h) && backup in h && destination !in h && stage != destination && OneNameEach(start)
      requires destination in start && h[backup] == start[destination]
      ensures Fits(Move(h, backup, destination))
    {
      MoveKeepsTrees(h, backup, destination);
      forall n | n in start && n != stage && n != destination
        ensures n in Move(h, backup, destination) && Move(h, backup, destination)[n] == start[n]
      {
        if n == backup {
          SameTreeSameName(n);
        }
      }
    }

    lemma {:induction false} SameTreeSameName(n: Name)
      requires OneNameEach(start) && n in start && destination in start && start[n] == start[destination]
      ensures n == destination
    {
    }

    /** `_restore_exact_previous_directory`, for a destination that was not missing. */
    method RestoreExact(backup: Name, previous: Tree) returns (ok: bool)
      requires Valid() && Lookup(start, destination) == Some(previous)
      modifies this`names, this`history, this`faults
      ensures Valid() && old(history) <= history
      ensures ok ==> faults == old(faults) && Lookup(names, destination) == Some(previous)
      ensures faults >= old(faults)
      ensures !ok && Lookup(old(names), backup) == Some(previous) && destination !in old(names) ==>
                faults > old(faults)
    {
      ok := Require(backup, previous);
      if !ok {
        return;
      }
      if destination !in names {
        RestoreFits(names, backup);
      }
      var r := Rename(backup, destination);
      if !r.Moved? {
        return false;
      }
      ok := Require(destination, previous);
      if !ok {
        var swallowed := Quarantine();
      }
    }

    /** `_restore_claimed_directory`: the claimed tree goes back unread. */
    method RestoreClaimed(backup: Name) returns (ok: bool)
      requires Valid() && destination in start && destination !in names
      requires Lookup(names, backup) == Some(start[destination])
      modifies this`names, this`history, this`faults
      ensures Valid() && old(history) <= history
      ensures faults >= old(faults)
      ensures faults == old(faults) ==> Lookup(names, destination) == Lookup(start, destination)
    {
      RestoreFits(names, backup);
      var r := Rename(backup, destination);
      ok := r.Moved?;
    }

    /** The previous tree, if any, has been moved to its backup name and nothing else. */
    ghost predicate Isolated(backup: Option<Name>)
      reads this`names
    {
      match backup
      case None => destination !in start && names == start
      case Some(q) => destination in start && q !in start && names == Move(start, destination, q)
    }

    /** The parent with the previous tree, if any, at its backup name and nothing else moved. */
    ghost function Aside(backup: Option<Name>): Names {
      if backup.Some? && destination in start then Move(start, destination, backup.value) else start
    }

    /** The staged tree is in place, the previous one, if any, at its backup, and nothing
        else has moved. */
    ghost predicate Exposed(backup: Option<Name>)
      reads this`names
    {
      && stage in start && stage in Aside(backup) && names == Move(Aside(backup), stage, destination)
      && Lookup(names, destination) == Some(start[stage])
      && (backup.Some? <==> destination in start)
      && (backup.Some? ==> backup.value != destination && Lookup(names, backup.value) == Lookup(start, destination))
    }

    ghost function OfPrevious(backup: Option<Name>, h: Names): seq<Validation> {
      if backup.Some? then [Validation(ForPrevious, h)] else []
    }

    /** What is validated in a publication that goes through: the staged tree before
        anything has moved, the previous one where it has been moved to, the published
        one in its place, and the previous one once more. */
    ghost function AllValidated(backup: Option<Name>, h: Names): seq<Validation> {
      ([Validation(ForStaged, start)] + OfPrevious(backup, Aside(backup)))
      + ([Validation(ForPublished, h)] + OfPrevious(backup, h))
    }

    /** There is nothing to publish, or an expectation that was given is not met. */
    ghost predicate Refused(expectedStage: Option<Tree>, expectedDestination: Option<Option<Tree>>) {
      || stage !in start
      || (expectedStage.Some? && Lookup(start, stage) != expectedStage)
      || (expectedDestination.Some? && Lookup(start, destination) != expectedDestination.value)
    }

    /** Lines 10705-10803: everything that is looked at before the first rename. */
    method Inspect(native: bool, expectedStage: Option<Tree>, expectedDestination: Option<Option<Tree>>)
      returns (ok: bool, staged: Tree, previous: Option<Tree>)
      requires Valid()
      modifies this`faults, this`validations
      ensures Valid()
      ensures ok ==> && faults == old(faults) && validations == old(validations) + [Validation(ForStaged, names)]
                     && Lookup(names, stage) == Some(staged) && Lookup(names, destination) == previous
                     && (native ==> previous.None?)
                     && (expectedStage.Some? ==> expectedStage.value == staged)
                     && (expectedDestination.Some? ==> expectedDestination.value == previous)
      ensures faults <= old(faults) + 1
      ensures !ok && faults == old(faults) ==>
                || stage !in names
                || (native && destination in names)
                || (expectedStage.Some? && Lookup(names, stage) != expectedStage)
                || (expectedDestination.Some? && Lookup(names, destination) != expectedDestination.value)
    {
      ok, staged, previous := false, 0, None;
      var seen, found := Look(stage);
      if !seen || found.None? {
        return;
      }
      staged := found.value;
      var captured := Require(stage, staged);
      if !captured || (expectedStage.Some? && expectedStage.value != staged) {
        return;
      }
      var going := Call();
      if !going {
        return;
      }
      var validated := Validate(ForStaged);
      if !validated {
        return;
      }
      var still := Require(stage, staged);
      if !still {
        return;
      }
      seen, previous := Look(destination);
      if !seen || (native && previous.Some?) || (expectedDestination.Some? && expectedDestination.value != previous) {
        return;
      }
      going := Call();
      if !going {
        return;
      }
      still := Require(stage, staged);
      if !still {
        return;
      }
      if previous.Some? {
        still := Require(destination, previous.value);
      }
      ok := still;
    }

    /** The previous tree is read at its backup name, validated and read again. */
    method CheckPrevious(backup: Name, previous: Tree) returns (ok: bool)
      requires Valid() && Lookup(names, backup) == Some(previous)
      modifies this`faults, this`validations
      ensures Valid() && faults == old(faults) + (if ok then 0 else 1)
      ensures ok ==> validations == old(validations) + [Validation(ForPrevious, names)]
    {
      ok := Require(backup, previous);
      if ok {
        ok := Validate(ForPrevious);
      }
      if ok {
        ok := Require(backup, previous);
      }
    }

    /** Lines 10804-10906: the previous tree is claimed, then both trees are checked. */
    method Isolate(staged: Tree, previous: Option<Tree>) returns (ok: bool, backup: Option<Name>)
      requires Valid() && names == start
      requires Lookup(names, stage) == Some(staged) && Lookup(names, destination) == previous
      modifies this`names, this`history, this`faults, this`validations
      ensures Valid() && old(history) <= history
      ensures ok ==> faults == old(faults) && Isolated(backup) && validations == old(validations) + OfPrevious(backup, names)
      ensures previous.None? ==> history == old(history)
      ensures !ok ==> faults > old(faults) && (faults == old(faults) + 1 ==> Unchanged())
    {
      ok, backup := true, None;
      if previous.Some? {
        backup := Claim();
        if backup.None? {
          return false, None;
        }
        ok := CheckPrevious(backup.value, previous.value);
      }
      if ok {
        ok := Require(stage, staged);
      }
      if !ok && backup.Some? {
        var restored := RestoreClaimed(backup.value);
      }
    }

    lemma {:induction false} ExposeFits(backup: Option<Name>)
      requires Valid() && Isolated(backup) && stage in start
      ensures stage in names && names[stage] == start[stage] && destination !in names
      ensures Fits(Move(names, stage, destination))
    {
      MoveKeepsTrees(names, stage, destination);
    }

    /** `restore_previous`: nothing to do for a destination that was missing. */
    method RestorePrevious(backup: Option<Name>, previous: Option<Tree>) returns (ok: bool)
      requires Valid() && Lookup(start, destination) == previous && (backup.Some? <==> previous.Some?)
      modifies this`names, this`history, this`faults
      ensures Valid() && old(history) <= history && faults >= old(faults)
      ensures (backup.Some? && Lookup(old(names), backup.value) == previous && destination !in old(names)
               && faults == old(faults)) ==> Unchanged()
      ensures backup.None? ==> names == old(names)
    {
      ok := true;
      if backup.Some? {
        ok := RestoreExact(backup.value, previous.value);
      }
    }

    /** Undoing an exposed publication: the staged tree goes to quarantine, the previous
        one back to its name. */
    method RollBack(backup: Option<Name>, previous: Option<Tree>) returns (ok: bool)
      requires Valid() && Lookup(start, destination) == previous && Exposed(backup)
      modifies this`names, this`history, this`faults
      ensures Valid() && old(history) <= history && faults >= old(faults)
      ensures faults == old(faults) ==> Unchanged()
    {
      ok := Quarantine();
      if ok {
        ok := RestorePrevious(backup, previous);
      }
    }

    /** The rename raised: whether it took effect is read off the parent. */
    method UndoUnknown(staged: Tree, backup: Option<Name>, previous: Option<Tree>)
      requires Valid() && (Exposed(backup) || Isolated(backup))
      requires Lookup(start, stage) == Some(staged) && Lookup(start, destination) == previous
      modifies this`names, this`history, this`faults
      ensures Valid() && old(history) <= history && faults >= old(faults)
      ensures faults == old(faults) ==> Unchanged()
    {
      var exposed := Require(destination, staged);
      var undone;
      if exposed {
        undone := RollBack(backup, previous);
      } else {
        undone := RestorePrevious(backup, previous);
      }
    }

    /** Lines 10908-10941: the rename that exposes the staged tree. */
    method Expose(native: bool, staged: Tree, backup: Option<Name>, previous: Option<Tree>) returns (ok: bool)
      requires Valid() && Isolated(backup)
      requires Lookup(start, stage) == Some(staged) && Lookup(start, destination) == previous
      modifies this`names, this`history, this`faults
      ensures Valid() && old(history) <= history
      ensures native ==> |history| <= |old(history)| + 1
      ensures ok ==> faults == old(faults) && Exposed(backup)
      ensures !ok ==> faults > old(faults) && (!native && faults == old(faults) + 1 ==> Unchanged())
    {
      ExposeFits(backup);
      var r := Rename(stage, destination);
      ok := r.Moved?;
      if !ok && !native {
        UndoUnknown(staged, backup, previous);
      }
    }

    /** Lines 10943-11056: both trees are checked in their new places. */
    method Confirm(native: bool, staged: Tree, backup: Option<Name>, previous: Option<Tree>) returns (ok: bool)
      requires Valid() && Exposed(backup)
      requires Lookup(start, stage) == Some(staged) && Lookup(start, destination) == previous
      modifies this`names, this`history, this`faults, this`validations
      ensures Valid() && old(history) <= history
      ensures ok ==> faults == old(faults) && names == old(names)
                     && validations == old(validations) + ([Validation(ForPublished, names)] + OfPrevious(backup, names))
      ensures native && backup.None? ==> history == old(history)
      ensures !ok ==> faults > old(faults) && (!native && faults == old(faults) + 1 ==> Unchanged())
    {
      ok := Require(destination, staged);
      if ok {
        ok := Validate(ForPublished);
      }
      if ok {
        ok := Require(destination, staged);
      }
      if !ok {
        if !native {
          var undone := RollBack(backup, previous);
        }
        return false;
      }
      if backup.Some? {
        ok := CheckPrevious(backup.value, previous.value);
        if !ok {
          var kept := Require(backup.value, previous.value);
          if kept {
            var undone := RollBack(backup, previous);
          }
          return false;
        }
      }
    }

    /** Lines 11058-11099: receipts, synchronisation and the commit callback. No fault
        here undoes anything. */
    method Receipt(staged: Tree, backup: Option<Name>, previous: Option<Tree>) returns (ok: bool)
      requires Valid() && Exposed(backup)
      requires Lookup(start, stage) == Some(staged) && Lookup(start, destination) == previous
      modifies this`faults, this`commitments
      ensures Valid() && Exposed(backup)
      ensures ok ==> commitments == old(commitments) + [Commitment(names, validations)]
      ensures commitments == old(commitments) || commitments == old(commitments) + [Commitment(names, validations)]
      ensures faults == old(faults) + (if ok then 0 else 1)
    {
      ok := true;
      if backup.Some? {
        ok := Require(backup.value, previous.value);
      }
      if ok {
        ok := Require(destination, staged);
      }
      if ok {
        ok := Call();
      }
      if ok {
        ok := Commit();
      }
    }

    /** Lines 10804-11099: everything from the first rename on. */
    method Proceed(native: bool, staged: Tree, previous: Option<Tree>)
      returns (published: bool, backup: Option<Name>, passed: bool)
      requires Valid() && names == start && (native ==> previous.None?)
      requires Lookup(start, stage) == Some(staged) && Lookup(start, destination) == previous
      modifies this`names, this`history, this`faults, this`validations, this`commitments
      ensures Valid() && old(history) <= history && (native ==> |history| <= |old(history)| + 1)
      ensures published ==> passed && faults == old(faults)
      ensures passed ==> Exposed(backup) && faults <= old(faults) + 1
      ensures !passed ==> faults > old(faults) && commitments == old(commitments)
      ensures !passed && !native && faults <= old(faults) + 1 ==> Unchanged()
      ensures passed ==> validations == old(validations) + (OfPrevious(backup, Aside(backup))
                                        + ([Validation(ForPublished, names)] + OfPrevious(backup, names)))
      ensures published ==> commitments == old(commitments) + [Commitment(names, validations)]
      ensures passed ==> commitments == old(commitments) || commitments == old(commitments) + [Commitment(names, validations)]
      ensures passed && faults == old(faults) ==> published
    {
      published, backup, passed := false, None, false;
      var ok;
      ok, backup := Isolate(staged, previous);
      if !ok {
        return;
      }
      assert names == Aside(backup);
      ghost var aside := OfPrevious(backup, names);
      ok := Expose(native, staged, backup, previous);
      if !ok {
        return;
      }
      ok := Confirm(native, staged, backup, previous);
      if !ok {
        return;
      }
      passed := true;
      AsOne(old(validations), aside, [Validation(ForPublished, names)] + OfPrevious(backup, names));
      published := Receipt(staged, backup, previous);
    }

    /**
     `perform_publication`. `passed` says that the receipt part was reached.

     Whatever the faults, `Valid` says of every state the parent has had that each tree
     is under exactly one name, that no other tree has moved, and that the destination
     holds the previous tree, the staged tree or nothing. With at most one fault the
     generic backend either leaves the destination as it was, or has the new tree
     active and the previous one at its backup.
     */
    method Publish(native: bool, expectedStage: Option<Tree>, expectedDestination: Option<Option<Tree>>)
      returns (published: bool, backup: Option<Name>, passed: bool)
      requires Valid() && names == start
      modifies this`names, this`history, this`faults, this`validations, this`commitments
      ensures Valid() && old(history) <= history
      ensures published ==> passed && faults == old(faults)
      ensures passed ==> Exposed(backup) && faults <= old(faults) + 1
      ensures !passed && !native && faults <= old(faults) + 1 ==> Unchanged()
      ensures native && destination in start ==> names == start && !published
      ensures Refused(expectedStage, expectedDestination) ==> !passed && names == start && history == old(history)
      ensures passed ==> validations == old(validations) + AllValidated(backup, names)
      ensures published ==> commitments == old(commitments) + [Commitment(names, validations)]
      ensures passed ==> commitments == old(commitments) || commitments == old(commitments) + [Commitment(names, validations)]
      ensures !passed ==> commitments == old(commitments)
      ensures native ==> |history| <= |old(history)| + 1
      ensures (faults == old(faults) && !(native && destination in start)
               && !Refused(expectedStage, expectedDestination))
              ==> published
    {
      published, backup, passed := false, None, false;
      var ok, staged, previous := Inspect(native, expectedStage, expectedDestination);
      if !ok {
        return;
      }
      published, backup, passed := Proceed(native, staged, previous);
      InGroups(old(validations), [Validation(ForStaged, start)], OfPrevious(backup, Aside(backup)),
               [Validation(ForPublished, names)] + OfPrevious(backup, names));
    }
  }
}
