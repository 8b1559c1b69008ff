/** version/version.go: the version string. */
module Version {
  import opened Strs

  /** The package variables as shipped. */
  const Major: nat := 0
  const Minor: nat := 2
  const Patch: nat := 2
  const Commit: string := ""

  /** Version, for any non-negative values of Major, Minor and Patch and any
      Commit: the commit alone when one is set, otherwise Major.Minor.Patch
      in decimal. */
  function VersionOf(major: nat, minor: nat, patch: nat, commit: string): string {
    if commit == "" then Decimal(major) + "." + Decimal(minor) + "." + Decimal(patch)
    else commit
  }

  /** Version() with the shipped values. */
  function ShippedVersion(): string {
    VersionOf(Major, Minor, Patch, Commit)
  }

  /** The shipped build reports 0.2.2. */
  lemma ShippedIs022()
    ensures ShippedVersion() == "0.2.2"
  {
  }

  /** A set commit replaces the semantic version entirely. */
  lemma CommitReplacesSemver(major: nat, minor: nat, patch: nat, commit: string)
    requires commit != ""
    ensures VersionOf(major, minor, patch, commit) == commit
    ensures forall m: nat, n: nat, p: nat :: VersionOf(m, n, p, commit) == VersionOf(major, minor, patch, commit)
  {
  }

  /** Without a commit the string splits on dots into the three numbers'
      decimal spellings, which read back as the numbers: distinct versions
      give distinct strings. */
  lemma SemverRoundTrip(major: nat, minor: nat, patch: nat)
    ensures Split(VersionOf(major, minor, patch, ""), ".") == [Decimal(major), Decimal(minor), Decimal(patch)]
    ensures DigitsValue(Decimal(major)) == major && DigitsValue(Decimal(minor)) == minor && DigitsValue(Decimal(patch)) == patch
  {
    var a, b, c := Decimal(major), Decimal(minor), Decimal(patch);
    NoDot(a);
    NoDot(b);
    NoDot(c);
    ThreePieces(a, b, c, ".");
    DecimalValue(major);
    DecimalValue(minor);
    DecimalValue(patch);
  }

  /** A string of digits has no dot. */
  lemma NoDot(s: string)
    requires forall k :: 0 <= k < |s| ==> IsDigit(s[k])
    ensures '.' !in s
  {
  }
}
