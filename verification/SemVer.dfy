/** Semantic Versioning 2.0.0: a reader for version strings (sections 2, 9 and 10) and precedence
    (section 11), and what they say about the versions generated with scheme semver2. */
module SemVer {
  import opened Decimal
  import opened Text
  import opened Versioning

  // ---------------------------------------------------------------- reading

  /** A pre-release identifier: digits only, or not. */
  datatype Identifier = Numeric(number: nat) | Alphanumeric(text: string)

  datatype Version = Version(major: nat, minor: nat, patch: nat, pre: seq<Identifier>, build: seq<string>)

  predicate IsIdentifierChar(c: char) {
    IsDigit(c) || 'a' <= c <= 'z' || 'A' <= c <= 'Z' || c == '-'
  }

  predicate IsIdentifier(s: string) {
    s != "" && forall i :: 0 <= i < |s| ==> IsIdentifierChar(s[i])
  }

  /** Section 2: three non-negative integers without leading zeros, separated by dots. */
  function ReadCore(s: string): Option<(nat, nat, nat)> {
    var parts := Split(s, '.');
    if |parts| == 3 && Canonical(parts[0]) && Canonical(parts[1]) && Canonical(parts[2])
    then Some((Value(parts[0]), Value(parts[1]), Value(parts[2])))
    else None
  }

  /** Section 9: an identifier of digits only has no leading zeros. */
  function ReadIdentifier(s: string): Option<Identifier> {
    if !IsIdentifier(s) then None
    else if AllDigits(s) then if Canonical(s) then Some(Numeric(Value(s))) else None
    else Some(Alphanumeric(s))
  }

  function ReadIdentifiers(parts: seq<string>): Option<seq<Identifier>> {
    if parts == [] then Some([])
    else match ReadIdentifier(parts[0])
      case None => None
      case Some(id) =>
        match ReadIdentifiers(parts[1..])
        case None => None
        case Some(rest) => Some([id] + rest)
  }

  /** Section 10: build identifiers are not empty. */
  predicate AllIdentifiers(parts: seq<string>) {
    forall i :: 0 <= i < |parts| ==> IsIdentifier(parts[i])
  }

  /** Core and pre-release. */
  function ReadRelease(s: string, build: seq<string>): Option<Version> {
    var dash := FirstIndex(s, '-');
    match ReadCore(s[..dash])
    case None => None
    case Some((major, minor, patch)) =>
      if dash == |s| then Some(Version(major, minor, patch, [], build))
      else match ReadIdentifiers(Split(s[dash + 1..], '.'))
        case None => None
        case Some(pre) => Some(Version(major, minor, patch, pre, build))
  }

  function ReadVersion(s: string): Option<Version> {
    var plus := FirstIndex(s, '+');
    if plus == |s| then ReadRelease(s, [])
    else
      var build := Split(s[plus + 1..], '.');
      if AllIdentifiers(build) then ReadRelease(s[..plus], build) else None
  }

  // ---------------------------------------------------------------- precedence

  function CompareNumbers(a: nat, b: nat): int {
    if a < b then -1 else if a > b then 1 else 0
  }

  /** ASCII order of texts. */
  function CompareTexts(a: string, b: string): int {
    if a == "" then if b == "" then 0 else -1
    else if b == "" then 1
    else if a[0] != b[0] then if a[0] < b[0] then -1 else 1
    else CompareTexts(a[1..], b[1..])
  }

  function CompareIdentifiers(a: Identifier, b: Identifier): int {
    match (a, b)
    case (Numeric(m), Numeric(n)) => CompareNumbers(m, n)
    case (Numeric(_), Alphanumeric(_)) => -1
    case (Alphanumeric(_), Numeric(_)) => 1
    case (Alphanumeric(x), Alphanumeric(y)) => CompareTexts(x, y)
  }

  /** A longer list wins if all preceding identifiers are equal. */
  function ComparePre(a: seq<Identifier>, b: seq<Identifier>): int {
    if a == [] then if b == [] then 0 else -1
    else if b == [] then 1
    else if CompareIdentifiers(a[0], b[0]) != 0 then CompareIdentifiers(a[0], b[0])
    else ComparePre(a[1..], b[1..])
  }

  /** Section 11: core first, a pre-release ranks below the release, build metadata does not count. */
  function Compare(a: Version, b: Version): int {
    if a.major != b.major then CompareNumbers(a.major, b.major)
    else if a.minor != b.minor then CompareNumbers(a.minor, b.minor)
    else if a.patch != b.patch then CompareNumbers(a.patch, b.patch)
    else if a.pre == [] && b.pre == [] then 0
    else if a.pre == [] then 1
    else if b.pre == [] then -1
    else ComparePre(a.pre, b.pre)
  }

  // ---------------------------------------------------------------- generated versions

  /** A base version X.Y.Z without leading zeros. */
  datatype Core = Core(major: nat, minor: nat, patch: nat)

  function CoreText(c: Core): string {
    Digits(c.major) + "." + Digits(c.minor) + "." + Digits(c.patch)
  }

  lemma CoreReads(c: Core)
    ensures ReadCore(CoreText(c)) == Some((c.major, c.minor, c.patch))
  {
    hide Split, Digits, Value;
    var x, y, z := Digits(c.major), Digits(c.minor), Digits(c.patch);
    SplitOne(z, '.');
    SplitMore(y, '.', z);
    SplitMore(x, '.', y + ['.'] + z);
    assert CoreText(c) == x + ['.'] + (y + ['.'] + z);
    ValueOfDigits(c.major);
    ValueOfDigits(c.minor);
    ValueOfDigits(c.patch);
  }

  lemma CoreFree(c: Core, d: char)
    requires !IsDigit(d) && d != '.'
    ensures Free(CoreText(c), d)
  {
  }

  function SemverTemplate(): Template {
    VersioningTemplate(Semver2).value
  }

  lemma HexIsIdentifier(s: string)
    requires AllHex(s) && s != ""
    ensures IsIdentifier(s) && Free(s, '.') && Free(s, '+') && Free(s, '-')
  {
  }

  lemma StampFree(stamp: string)
    requires IsIdentifier(stamp)
    ensures Free(stamp, '.') && Free(stamp, '+')
  {
  }

  /** Core and timestamp: a valid release exactly if the timestamp is a valid identifier. */
  lemma ReleaseReads(c: Core, stamp: string, build: seq<string>)
    requires IsIdentifier(stamp)
    ensures ReadRelease(CoreText(c) + ['-'] + stamp, build)
         == match ReadIdentifier(stamp)
            case Some(id) => Some(Version(c.major, c.minor, c.patch, [id], build))
            case None => None
  {
    var s := CoreText(c) + ['-'] + stamp;
    CoreFree(c, '-');
    FirstIndexOf(CoreText(c), '-', stamp);
    CoreReads(c);
    assert s[..|CoreText(c)|] == CoreText(c) && s[|CoreText(c)| + 1..] == stamp;
    StampFree(stamp);
    SplitOne(stamp, '.');
    OneIdentifier(stamp);
    hide ReadCore, Split, ReadIdentifiers, CoreText, ReadIdentifier;
  }

  lemma OneIdentifier(stamp: string)
    ensures ReadIdentifiers([stamp]) == match ReadIdentifier(stamp) case Some(id) => Some([id]) case None => None
  {
    hide ReadIdentifier;
    assert [stamp][1..] == [];
    assert ReadIdentifiers([stamp][1..]) == Some([]);
    if ReadIdentifier(stamp).Some? {
      assert [ReadIdentifier(stamp).value] + [] == [ReadIdentifier(stamp).value];
    }
  }

  lemma ReadsWithoutBuild(front: string)
    requires Free(front, '+')
    ensures ReadVersion(front) == ReadRelease(front, [])
  {
    FirstIndexOf(front, '+', "");
  }

  lemma ReadsWithBuild(front: string, commit: string)
    requires Free(front, '+') && AllHex(commit) && commit != ""
    ensures ReadVersion(front + ['+'] + commit) == ReadRelease(front, [commit])
  {
    hide ReadRelease, Split;
    var s := front + ['+'] + commit;
    FirstIndexOf(front, '+', commit);
    assert s[..|front|] == front && s[|front| + 1..] == commit;
    HexIsIdentifier(commit);
    SplitOne(commit, '.');
  }

  lemma FrontFree(c: Core, stamp: string)
    requires IsIdentifier(stamp)
    ensures Free(CoreText(c) + ['-'] + stamp, '+')
  {
    CoreFree(c, '+');
    StampFree(stamp);
    hide CoreText, IsIdentifier;
  }

  /** What a generated version is, and that it is valid exactly if its timestamp is a valid identifier. */
  lemma GeneratedReads(c: Core, stamp: string, commit: string)
    requires IsIdentifier(stamp) && AllHex(commit)
    ensures ReadVersion(Execute(SemverTemplate(), Parts(CoreText(c), stamp, commit)))
         == match ReadIdentifier(stamp)
            case Some(id) => Some(Version(c.major, c.minor, c.patch, [id], if commit == "" then [] else [commit]))
            case None => None
  {
    hide ReadVersion, ReadRelease, CoreText, Free, ReadIdentifier;
    var front := CoreText(c) + ['-'] + stamp;
    FrontFree(c, stamp);
    if commit == "" {
      assert Execute(SemverTemplate(), Parts(CoreText(c), stamp, commit)) == front;
      ReadsWithoutBuild(front);
      ReleaseReads(c, stamp, []);
    } else {
      assert Execute(SemverTemplate(), Parts(CoreText(c), stamp, commit)) == front + ['+'] + commit;
      ReadsWithBuild(front, commit);
      ReleaseReads(c, stamp, [commit]);
    }
  }

  /** The default timestamp has a leading zero exactly in the years before 1000, a unix timestamp never. */
  lemma StampCanonical(t: Time, unixTimestamp: bool)
    requires IsCivil(t.civil) && (unixTimestamp ==> t.unix >= 0)
    ensures Canonical(Timestamp(t, unixTimestamp)) <==> unixTimestamp || t.civil.year >= 1000
  {
    if !unixTimestamp {
      StampIsNumber(t.civil);
      PadFour(t.civil.year);
      assert Stamp(t.civil)[0] == Pad(t.civil.year, 4)[0];
    }
  }

  function Generated(c: Core, commitID: string, o: Options, t: Time): string
    requires IsCommitID(commitID)
  {
    CalculateNewVersion(SemverTemplate(), CoreText(c), commitID, o, t)
  }

  function StampValue(t: Time, unixTimestamp: bool): nat
    requires unixTimestamp ==> t.unix >= 0
  {
    if unixTimestamp then t.unix else StampNumber(t.civil)
  }

  /** The identifier a timestamp is read as: a number, or a text with a dash in front before 1970. */
  function StampIdentifier(t: Time, unixTimestamp: bool): Identifier {
    if unixTimestamp && t.unix < 0 then Alphanumeric(Signed(t.unix)) else Numeric(StampValue(t, unixTimestamp))
  }

  lemma TimestampReads(t: Time, unixTimestamp: bool)
    requires IsCivil(t.civil)
    ensures IsIdentifier(Timestamp(t, unixTimestamp))
    ensures ReadIdentifier(Timestamp(t, unixTimestamp))
         == if unixTimestamp || t.civil.year >= 1000 then Some(StampIdentifier(t, unixTimestamp)) else None
  {
    hide Canonical, Digits, Value, Stamp;
    if unixTimestamp && t.unix < 0 {
      NegativeStamp(-t.unix);
    } else {
      var stamp := Timestamp(t, unixTimestamp);
      TimestampDigits(t, unixTimestamp);
      assert forall i :: 0 <= i < |stamp| ==> IsDigit(stamp[i]);
      StampCanonical(t, unixTimestamp);
      if unixTimestamp { ValueOfDigits(t.unix); } else { StampIsNumber(t.civil); }
    }
  }

  lemma NegativeStamp(n: int)
    requires n > 0
    ensures IsIdentifier(Signed(-n)) && ReadIdentifier(Signed(-n)) == Some(Alphanumeric(Signed(-n)))
  {
    hide Digits;
    var stamp := Signed(-n);
    assert stamp == "-" + Digits(n);
    assert AllDigits(Digits(n));
    assert forall i :: 0 < i < |stamp| ==> stamp[i] == Digits(n)[i - 1];
    assert !IsDigit(stamp[0]);
  }

  /** A generated version is valid under Semantic Versioning exactly if the year has four digits or more
      or the unix format is used; it then reads as the base with the timestamp as only pre-release identifier. */
  lemma GeneratedIsSemver(c: Core, commitID: string, o: Options, t: Time)
    requires IsCommitID(commitID) && IsCivil(t.civil)
    ensures ReadVersion(Generated(c, commitID, o, t)).Some? <==> o.unixTimestamp || t.civil.year >= 1000
    ensures ReadVersion(Generated(c, commitID, o, t)).Some? ==>
      ReadVersion(Generated(c, commitID, o, t)).value
      == Version(c.major, c.minor, c.patch, [StampIdentifier(t, o.unixTimestamp)],
                 if o.includeCommitID then [CommitPart(commitID, o)] else [])
  {
    TimestampReads(t, o.unixTimestamp);
    GeneratedReads(c, Timestamp(t, o.unixTimestamp), CommitPart(commitID, o));
    hide ReadVersion, Execute, CoreText, ReadIdentifier, StampIdentifier, Timestamp, IsIdentifier;
  }

  /** -1, 0 or 1 as a is before, at or after b. */
  ghost function CompareTimes(a: Time, b: Time, unixTimestamp: bool): int {
    if unixTimestamp then if a.unix < b.unix then -1 else if a.unix > b.unix then 1 else 0
    else if Earlier(a.civil, b.civil) then -1 else if Earlier(b.civil, a.civil) then 1 else 0
  }

  lemma CompareOne(m: Identifier, n: Identifier)
    ensures ComparePre([m], [n]) == CompareIdentifiers(m, n)
  {
    assert [m][1..] == [] && [n][1..] == [];
  }

  /** Precedence of generated versions is the order of base version and time, in this order; the commit
      does not matter. In particular a later time gives a strictly higher version. */
  lemma PrecedenceIsTime(c: Core, d: Core, commit: string, other: string, o: Options, t: Time, u: Time)
    requires IsCommitID(commit) && IsCommitID(other) && IsCivil(t.civil) && IsCivil(u.civil)
    requires if o.unixTimestamp then t.unix >= 0 && u.unix >= 0 else t.civil.year >= 1000 && u.civil.year >= 1000
    ensures var a, b := ReadVersion(Generated(c, commit, o, t)), ReadVersion(Generated(d, other, o, u));
            a.Some? && b.Some?
            && Compare(a.value, b.value)
               == if c.major != d.major then CompareNumbers(c.major, d.major)
                  else if c.minor != d.minor then CompareNumbers(c.minor, d.minor)
                  else if c.patch != d.patch then CompareNumbers(c.patch, d.patch)
                  else CompareTimes(t, u, o.unixTimestamp)
  {
    GeneratedIsSemver(c, commit, o, t);
    GeneratedIsSemver(d, other, o, u);
    StampOrder(t.civil, u.civil);
    StampOrder(u.civil, t.civil);
    hide ReadVersion, Generated, Earlier, StampNumber, ComparePre, Signed;
    CompareOne(Numeric(StampValue(t, o.unixTimestamp)), Numeric(StampValue(u, o.unixTimestamp)));
  }

  /** Before 1970 precedence is not time: with a unix timestamp, a version from before 1970 ranks above every
      version of the same base from 1970 on. */
  lemma Before1970RanksAbove(c: Core, commit: string, other: string, o: Options, t: Time, u: Time)
    requires IsCommitID(commit) && IsCommitID(other) && IsCivil(t.civil) && IsCivil(u.civil)
    requires o.unixTimestamp && t.unix < 0 <= u.unix
    ensures var a, b := ReadVersion(Generated(c, commit, o, t)), ReadVersion(Generated(c, other, o, u));
            a.Some? && b.Some? && Compare(a.value, b.value) == 1 && CompareTimes(t, u, true) == -1
  {
    GeneratedIsSemver(c, commit, o, t);
    GeneratedIsSemver(c, other, o, u);
    hide ReadVersion, Generated, ComparePre, Signed;
    CompareOne(StampIdentifier(t, true), StampIdentifier(u, true));
  }
}
