/**
 * The decision logic of the PharmacistNuGetTask build task: the package list
 * it derives from the project's package references, the lock-file check that
 * lets it skip regeneration, and the outcome of Execute.
 *
 * File-system access, JSON, logging and the event generator are abstracted:
 * what they answer is part of the task's inputs.
 */
module NuGetTask {
  import opened Wrappers

  /** A PackageReference item, through its PackageName and Version metadata. */
  datatype PackageReference = PackageReference(packageName: string, version: string)

  /** A parsed NuGet version range; its inner structure plays no part here. */
  datatype VersionRange = VersionRange(normalized: string)

  datatype LibraryDependencyTarget = Package | Project | ExternalProject | Assembly | Reference | WinMD

  /** A LibraryRange: a library name, a version range and a dependency target. */
  datatype LibraryRange = LibraryRange(name: string, versionRange: VersionRange, typeConstraint: LibraryDependencyTarget)

  /** The library code the task calls, as values. */
  datatype Host = Host(
    ignoreCaseEquals: (string, string) -> bool,           // StringComparer.InvariantCultureIgnoreCase
    tryParseVersion: string -> Option<VersionRange>,        // VersionRange.TryParse
    libraryEquals: (LibraryRange, LibraryRange) -> bool,    // LibraryRange.Equals
    isWhiteSpace: char -> bool)                             // char.IsWhiteSpace

  /** The package names the task never passes on: its own packages. */
  const ExclusionPackageReferenceSet: seq<string> := ["Pharmacist.MSBuild", "Pharmacist.Common"]

  /** Membership in the case-insensitive exclusion set: a name matching either of the task's own packages. */
  predicate IsExcluded(host: Host, packageName: string)
    ensures IsExcluded(host, packageName) <==>
      host.ignoreCaseEquals(ExclusionPackageReferenceSet[0], packageName) || host.ignoreCaseEquals(ExclusionPackageReferenceSet[1], packageName)
  {
    exists i :: 0 <= i < |ExclusionPackageReferenceSet| && host.ignoreCaseEquals(ExclusionPackageReferenceSet[i], packageName)
  }

  // ---------------------------------------------------------------------------
  // GetPackages
  // ---------------------------------------------------------------------------

  /** What one reference contributes: nothing when excluded or its version does not parse. */
  function PackageEntry(host: Host, reference: PackageReference): (r: Option<LibraryRange>)
    ensures r.Some? <==> !IsExcluded(host, reference.packageName) && host.tryParseVersion(reference.version).Some?
    ensures r.Some? ==> r.value.name == reference.packageName && r.value.typeConstraint == Package
                        && Some(r.value.versionRange) == host.tryParseVersion(reference.version)
  {
    if IsExcluded(host, reference.packageName) then None
    else match host.tryParseVersion(reference.version)
      case None => None
      case Some(range) => Some(LibraryRange(reference.packageName, range, Package))
  }

  /** The package list of a sequence of references, in reference order. */
  function Packages(host: Host, references: seq<PackageReference>): (r: seq<LibraryRange>)
    ensures |r| <= |references|
    ensures forall k :: 0 <= k < |r| ==> !IsExcluded(host, r[k].name) && r[k].typeConstraint == Package
  {
    if references == [] then []
    else
      (match PackageEntry(host, references[0]) case None => [] case Some(l) => [l])
      + Packages(host, references[1..])
  }

  /** GetPackages: the filter loop over PackageReferences. */
  method GetPackages(host: Host, packageReferences: seq<PackageReference>) returns (packages: seq<LibraryRange>)
    ensures packages == Packages(host, packageReferences)
  {
    packages := [];
    for i := 0 to |packageReferences|
      invariant packages == Packages(host, packageReferences[..i])
    {
      PackagesSnoc(host, packageReferences, i);
      var packageReference := packageReferences[i];
      var packageName := packageReference.packageName;
      if IsExcluded(host, packageName) {
        continue;
      }
      var nuGetVersion := host.tryParseVersion(packageReference.version);
      if nuGetVersion.None? {
        continue;
      }
      var packageIdentity := LibraryRange(packageName, nuGetVersion.value, Package);
      packages := packages + [packageIdentity];
    }
    assert packageReferences[..|packageReferences|] == packageReferences;
  }

  /** The package list of a concatenation is the concatenation of the package lists: order is kept. */
  lemma {:induction false} PackagesAppend(host: Host, a: seq<PackageReference>, b: seq<PackageReference>)
    ensures Packages(host, a + b) == Packages(host, a) + Packages(host, b)
  {
    if a == [] {
      assert a + b == b;
    } else {
      assert (a + b)[1..] == a[1..] + b;
      PackagesAppend(host, a[1..], b);
    }
  }

  lemma PackagesSnoc(host: Host, references: seq<PackageReference>, i: nat)
    requires i < |references|
    ensures Packages(host, references[..i + 1]) == Packages(host, references[..i]) +
      (match PackageEntry(host, references[i]) case None => [] case Some(l) => [l])
  {
    assert references[..i + 1] == references[..i] + [references[i]];
    PackagesAppend(host, references[..i], [references[i]]);
    assert [references[i]][1..] == [];
  }

  /** A package is in the list exactly when some reference contributes it. */
  lemma {:induction false} PackagesMembership(host: Host, references: seq<PackageReference>, l: LibraryRange)
    ensures l in Packages(host, references) <==>
      exists i :: 0 <= i < |references| && PackageEntry(host, references[i]) == Some(l)
  {
    if references != [] {
      PackagesMembership(host, references[1..], l);
      if l in Packages(host, references[1..]) {
        var i :| 0 <= i < |references[1..]| && PackageEntry(host, references[1..][i]) == Some(l);
        assert PackageEntry(host, references[i + 1]) == Some(l);
      }
      if exists i :: 0 <= i < |references| && PackageEntry(host, references[i]) == Some(l) {
        var i :| 0 <= i < |references| && PackageEntry(host, references[i]) == Some(l);
        if i > 0 {
          assert references[1..][i - 1] == references[i];
        }
      }
    }
  }

  /** The list is no longer than the references. */
  lemma {:induction false} PackagesNoLonger(host: Host, references: seq<PackageReference>)
    ensures |Packages(host, references)| <= |references|
  {
    if references != [] {
      PackagesNoLonger(host, references[1..]);
    }
  }

  /**
   * Every package comes from a reference that is not excluded (case-insensitively),
   * whose version parsed: its name, its parsed range, the Package target.
   */
  lemma PackagesProvenance(host: Host, references: seq<PackageReference>, l: LibraryRange)
    requires l in Packages(host, references)
    ensures !IsExcluded(host, l.name)
    ensures l.typeConstraint == Package
    ensures exists i :: (0 <= i < |references| && references[i].packageName == l.name
                         && host.tryParseVersion(references[i].version) == Some(l.versionRange))
  {
    PackagesMembership(host, references, l);
    var i :| 0 <= i < |references| && PackageEntry(host, references[i]) == Some(l);
  }

  /** Every reference that is not excluded and whose version parses is in the list. */
  lemma PackagesComplete(host: Host, references: seq<PackageReference>, i: nat)
    requires i < |references|
    requires !IsExcluded(host, references[i].packageName)
    requires host.tryParseVersion(references[i].version).Some?
    ensures LibraryRange(references[i].packageName, host.tryParseVersion(references[i].version).value, Package)
            in Packages(host, references)
  {
    var l := LibraryRange(references[i].packageName, host.tryParseVersion(references[i].version).value, Package);
    assert PackageEntry(host, references[i]) == Some(l);
    PackagesMembership(host, references, l);
  }

  lemma PackagesOfDropped(host: Host, r: PackageReference, after: seq<PackageReference>)
    requires PackageEntry(host, r).None?
    ensures Packages(host, [r] + after) == Packages(host, after)
  {
    assert ([r] + after)[0] == r && ([r] + after)[1..] == after;
  }

  /** A reference with an unparsable version is dropped and the references after it are still processed. */
  lemma InvalidVersionIsSkipped(host: Host, references: seq<PackageReference>, i: nat)
    requires i < |references|
    requires host.tryParseVersion(references[i].version).None?
    ensures Packages(host, references) == Packages(host, references[..i]) + Packages(host, references[i + 1..])
  {
    var before, r, after := references[..i], references[i], references[i + 1..];
    assert references == before + ([r] + after);
    PackagesAppend(host, before, [r] + after);
    PackagesOfDropped(host, r, after);
  }

  // ---------------------------------------------------------------------------
  // The lock-file check and Execute
  // ---------------------------------------------------------------------------

  /** List.Contains: some element of `packages` equals `l`. */
  predicate Contains(host: Host, packages: seq<LibraryRange>, l: LibraryRange)
  {
    exists i :: 0 <= i < |packages| && host.libraryEquals(packages[i], l)
  }

  /** The locked list is non-null, as long as `packages`, and each of its entries is contained in `packages`. */
  predicate LockMatches(host: Host, lockedLibraries: Option<seq<LibraryRange>>, packages: seq<LibraryRange>)
    ensures LockMatches(host, lockedLibraries, packages) ==> lockedLibraries.Some? && |lockedLibraries.value| == |packages|
    ensures (forall l :: host.libraryEquals(l, l)) && lockedLibraries == Some(packages) ==> LockMatches(host, lockedLibraries, packages)
  {
    && lockedLibraries.Some?
    && |lockedLibraries.value| == |packages|
    && forall k :: 0 <= k < |lockedLibraries.value| ==> Contains(host, packages, lockedLibraries.value[k])
  }

  /** What reading and deserialising the lock file yields; a thrown exception is logged and ignored. */
  datatype LockFileRead = Deserialized(lockedLibraries: Option<seq<LibraryRange>>) | ReadFailed

  /** The task's properties and what the file system, framework helper and generator answer. */
  datatype TaskInputs = TaskInputs(
    packageReferences: seq<PackageReference>,
    outputFile: Option<string>,
    targetFrameworks: Option<seq<string>>,   // TargetFrameworkHelper.GetTargetFrameworks
    lockFileExists: bool,
    outputFileExists: bool,
    lockFile: LockFileRead,
    extractionSucceeds: bool)                // ExtractEventsFromNuGetPackages completes

  predicate IsNullOrWhiteSpace(host: Host, s: Option<string>)
  {
    s.None? || forall i :: 0 <= i < |s.value| ==> host.isWhiteSpace(s.value[i])
  }

  /** The output file is set and the target frameworks resolved. */
  predicate Configured(host: Host, task: TaskInputs)
  {
    !IsNullOrWhiteSpace(host, task.outputFile) && task.targetFrameworks.Some?
  }

  /** The up-to-date check: both files exist and the lock file records a list matching `packages`. */
  predicate UpToDate(host: Host, task: TaskInputs, packages: seq<LibraryRange>)
    ensures !task.lockFileExists || !task.outputFileExists || task.lockFile.ReadFailed? ==> !UpToDate(host, task, packages)
    ensures UpToDate(host, task, packages) ==> task.lockFile.lockedLibraries.Some? && |task.lockFile.lockedLibraries.value| == |packages|
    ensures ((forall l :: host.libraryEquals(l, l)) && task.lockFileExists && task.outputFileExists
             && task.lockFile == Deserialized(Some(packages))) ==> UpToDate(host, task, packages)
  {
    && task.lockFileExists
    && task.outputFileExists
    && task.lockFile.Deserialized?
    && LockMatches(host, task.lockFile.lockedLibraries, packages)
  }

  /**
   * Execute: `result` is the task's return value, `lockWrite` the list
   * written to the lock file, if any.
   */
  method Execute(host: Host, task: TaskInputs) returns (result: bool, lockWrite: Option<seq<LibraryRange>>)
    ensures IsNullOrWhiteSpace(host, task.outputFile) ==> !result && lockWrite.None?
    ensures task.targetFrameworks.None? ==> !result && lockWrite.None?
    ensures Configured(host, task) && UpToDate(host, task, Packages(host, task.packageReferences)) ==>
      result && lockWrite.None?
    ensures Configured(host, task) && !UpToDate(host, task, Packages(host, task.packageReferences)) ==>
      result == task.extractionSucceeds &&
      lockWrite == (if task.extractionSucceeds then Some(Packages(host, task.packageReferences)) else None)
  {
    if IsNullOrWhiteSpace(host, task.outputFile) {
      return false, None;
    }

    var nugetFrameworks := task.targetFrameworks;
    if nugetFrameworks.None? {
      return false, None;
    }

    var packages := GetPackages(host, task.packageReferences);

    if task.lockFileExists && task.outputFileExists {
      match task.lockFile
      case Deserialized(lockedLibraries) =>
        if lockedLibraries.Some? && |lockedLibraries.value| == |packages|
           && forall k :: 0 <= k < |lockedLibraries.value| ==> Contains(host, packages, lockedLibraries.value[k])
        {
          return true, None;
        }
      case ReadFailed =>
    }

    if !task.extractionSucceeds {
      return false, None;
    }

    return true, Some(packages);
  }

  /**
   * The lock check is a count plus containment, not multiset equality: a
   * locked list with a repeated entry matches a package list it differs from.
   */
  lemma LockMatchIsNotMultisetEquality(host: Host, a: LibraryRange, b: LibraryRange)
    requires a != b
    requires forall x, y :: host.libraryEquals(x, y) <==> x == y
    ensures LockMatches(host, Some([a, a]), [a, b])
    ensures multiset([a, a]) != multiset([a, b])
  {
    assert Contains(host, [a, b], a) by { assert host.libraryEquals([a, b][0], a); }
    assert multiset([a, a])[a] == 2;
  }

  /**
   * After a successful run has written `packages` to the lock file, a run
   * over the same references with both files present takes the short-circuit.
   */
  lemma RerunIsUpToDate(host: Host, task: TaskInputs)
    requires forall x :: host.libraryEquals(x, x)
    requires task.lockFileExists && task.outputFileExists
    requires task.lockFile == Deserialized(Some(Packages(host, task.packageReferences)))
    ensures UpToDate(host, task, Packages(host, task.packageReferences))
  {
    var packages := Packages(host, task.packageReferences);
    forall k | 0 <= k < |packages| ensures Contains(host, packages, packages[k]) {
      assert host.libraryEquals(packages[k], packages[k]);
    }
  }
}
