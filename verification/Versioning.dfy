/** The version strings artifactPrepareVersion computes: four templates over base version, timestamp
    and commit, and the parser that inverts them from the right. */
module Versioning {
  import opened Decimal
  import opened Text

  // ---------------------------------------------------------------- timestamps

  /** The civil fields of a point in time. */
  datatype Civil = Civil(year: nat, month: nat, day: nat, hour: nat, minute: nat, second: nat)

  /** A point in time as the step sees it: its civil fields in the local time zone, and its unix time. */
  datatype Time = Time(civil: Civil, unix: int)

  predicate IsCivil(c: Civil) {
    1 <= c.month <= 12 && 1 <= c.day <= 31 && c.hour < 24 && c.minute < 60 && c.second < 60
  }

  /** Year, month, day, hour, minute, second: the layout 20060102150405. */
  function Stamp(c: Civil): string {
    Pad(c.year, 4) + Pad(c.month, 2) + Pad(c.day, 2) + Pad(c.hour, 2) + Pad(c.minute, 2) + Pad(c.second, 2)
  }

  function Signed(n: int): string {
    if n < 0 then "-" + Digits(-n) else Digits(n)
  }

  function Timestamp(t: Time, unixTimestamp: bool): string {
    if unixTimestamp then Signed(t.unix) else Stamp(t.civil)
  }

  function StampNumber(c: Civil): nat {
    ((((c.year * 100 + c.month) * 100 + c.day) * 100 + c.hour) * 100 + c.minute) * 100 + c.second
  }

  lemma StampIsNumber(c: Civil)
    requires IsCivil(c)
    ensures AllDigits(Stamp(c)) && Value(Stamp(c)) == StampNumber(c)
  {
    ValueOfPad(c.year, 4);
    var y := Pad(c.year, 4);
    ValueAppendTwo(y, c.month);
    var ym := y + Pad(c.month, 2);
    ValueAppendTwo(ym, c.day);
    var ymd := ym + Pad(c.day, 2);
    ValueAppendTwo(ymd, c.hour);
    var ymdh := ymd + Pad(c.hour, 2);
    ValueAppendTwo(ymdh, c.minute);
    ValueAppendTwo(ymdh + Pad(c.minute, 2), c.second);
  }

  /** The calendar order of civil fields. */
  ghost predicate Earlier(a: Civil, b: Civil) {
    a.year < b.year
    || (a.year == b.year && (a.month < b.month
    || (a.month == b.month && (a.day < b.day
    || (a.day == b.day && (a.hour < b.hour
    || (a.hour == b.hour && (a.minute < b.minute
    || (a.minute == b.minute && a.second < b.second)))))))))
  }

  /** As numbers, timestamps are ordered like the calendar, so different times print differently. */
  lemma StampOrder(a: Civil, b: Civil)
    requires IsCivil(a) && IsCivil(b)
    ensures Earlier(a, b) <==> StampNumber(a) < StampNumber(b)
    ensures StampNumber(a) == StampNumber(b) <==> a == b
  {
  }

  lemma TimestampDigits(t: Time, unixTimestamp: bool)
    requires IsCivil(t.civil) && (unixTimestamp ==> t.unix >= 0)
    ensures Timestamp(t, unixTimestamp) != "" && AllDigits(Timestamp(t, unixTimestamp))
  {
    if !unixTimestamp { StampIsNumber(t.civil); }
  }

  // ---------------------------------------------------------------- templates

  datatype Scheme = Docker | Maven | Pep440 | Semver2 | UnknownScheme(name: string)

  /** The separators of a template; the commit is only ever printed behind a timestamp. */
  datatype Template = Template(beforeTimestamp: char, beforeCommit: char)

  datatype Result<T> = Ok(value: T) | Unsupported(scheme: string)

  function VersioningTemplate(scheme: Scheme): Result<Template> {
    match scheme
    case Docker => Ok(Template('-', '-'))
    case Maven => Ok(Template('-', '_'))
    case Pep440 => Ok(Template('.', '+'))
    case Semver2 => Ok(Template('-', '+'))
    case UnknownScheme(name) => Unsupported(name)
  }

  /** The parts of a generated version; an empty commit means that none is printed. */
  datatype Parts = Parts(version: string, timestamp: string, commitID: string)

  function Execute(t: Template, p: Parts): string {
    p.version
    + if p.timestamp == "" then ""
      else [t.beforeTimestamp] + p.timestamp + if p.commitID == "" then "" else [t.beforeCommit] + p.commitID
  }

  predicate IsHex(c: char) {
    IsDigit(c) || 'a' <= c <= 'f'
  }

  predicate AllHex(s: string) {
    forall i :: 0 <= i < |s| ==> IsHex(s[i])
  }

  /** What git prints for a commit hash. */
  predicate IsCommitID(s: string) {
    |s| == 40 && AllHex(s)
  }

  datatype Options = Options(includeCommitID: bool, shortCommitID: bool, unixTimestamp: bool)

  function CommitPart(commitID: string, o: Options): string
    requires IsCommitID(commitID)
  {
    if !o.includeCommitID then "" else if o.shortCommitID then commitID[0..7] else commitID
  }

  function NewParts(version: string, commitID: string, o: Options, t: Time): Parts
    requires IsCommitID(commitID)
  {
    Parts(version, Timestamp(t, o.unixTimestamp), CommitPart(commitID, o))
  }

  function CalculateNewVersion(template: Template, version: string, commitID: string, o: Options, t: Time): string
    requires IsCommitID(commitID)
  {
    Execute(template, NewParts(version, commitID, o, t))
  }

  function CalculateCloudVersion(scheme: Scheme, version: string, commitID: string, o: Options, t: Time): Result<string>
    requires IsCommitID(commitID)
  {
    match VersioningTemplate(scheme)
    case Ok(template) => Ok(CalculateNewVersion(template, version, commitID, o, t))
    case Unsupported(name) => Unsupported(name)
  }

  // ---------------------------------------------------------------- reading a version from the right

  /** Base version and timestamp. */
  function ReadTimestamp(t: Template, s: string, commitID: string): Option<Parts> {
    match SplitLast(s, t.beforeTimestamp)
    case None => None
    case Some((version, stamp)) =>
      if stamp != "" && AllDigits(stamp) then Some(Parts(version, stamp, commitID)) else None
  }

  /** The inverse of a template: the commit, if one is expected, is everything behind the last commit
      separator, the timestamp everything behind the last timestamp separator before that. */
  function Read(t: Template, withCommit: bool, s: string): Option<Parts> {
    if !withCommit then ReadTimestamp(t, s, "")
    else
      match SplitLast(s, t.beforeCommit)
      case None => None
      case Some((front, commitID)) =>
        if commitID != "" && AllHex(commitID) then ReadTimestamp(t, front, commitID) else None
  }

  /** Parts as the step produces them. */
  predicate Proper(p: Parts, withCommit: bool) {
    p.timestamp != "" && AllDigits(p.timestamp) && AllHex(p.commitID) && (p.commitID != "" <==> withCommit)
  }

  predicate IsTemplate(t: Template) {
    !IsHex(t.beforeTimestamp) && !IsHex(t.beforeCommit)
  }

  /** Reading inverts printing, whatever the base version holds, separators included. */
  lemma ReadExecute(t: Template, withCommit: bool, p: Parts)
    requires IsTemplate(t) && Proper(p, withCommit)
    ensures Read(t, withCommit, Execute(t, p)) == Some(p)
  {
    var front := p.version + [t.beforeTimestamp] + p.timestamp;
    SplitLastOf(p.version, t.beforeTimestamp, p.timestamp);
    if withCommit {
      SplitLastOf(front, t.beforeCommit, p.commitID);
      assert Execute(t, p) == front + [t.beforeCommit] + p.commitID;
    } else {
      assert Execute(t, p) == front;
    }
  }

  lemma NoHex()
    ensures AllHex("")
  {
  }

  /** Whatever can be read is what printing the parts gives: the template is a bijection between proper
      parts and readable texts. */
  lemma ExecuteRead(t: Template, withCommit: bool, s: string)
    requires Read(t, withCommit, s).Some?
    ensures var p := Read(t, withCommit, s).value; Proper(p, withCommit) && Execute(t, p) == s
  {
    hide SplitLast, AllHex, AllDigits;
    var p := Read(t, withCommit, s).value;
    NoHex();
    if withCommit {
      SplitLastJoins(s, t.beforeCommit);
      var (front, _) := SplitLast(s, t.beforeCommit).value;
      SplitLastJoins(front, t.beforeTimestamp);
      assert s == p.version + ([t.beforeTimestamp] + p.timestamp + ([t.beforeCommit] + p.commitID));
    } else {
      SplitLastJoins(s, t.beforeTimestamp);
      assert s == p.version + ([t.beforeTimestamp] + p.timestamp + "");
    }
  }

  /** A cloud version never fails to be computed for a known scheme, and it can be read back: base
      version, timestamp and commit part are all recovered. */
  lemma CloudVersionReads(scheme: Scheme, version: string, commitID: string, o: Options, t: Time)
    requires IsCommitID(commitID) && IsCivil(t.civil) && (o.unixTimestamp ==> t.unix >= 0)
    ensures CalculateCloudVersion(scheme, version, commitID, o, t).Ok? <==> !scheme.UnknownScheme?
    ensures !scheme.UnknownScheme? ==>
      Read(VersioningTemplate(scheme).value, o.includeCommitID, CalculateCloudVersion(scheme, version, commitID, o, t).value)
      == Some(NewParts(version, commitID, o, t))
  {
    if !scheme.UnknownScheme? {
      TimestampDigits(t, o.unixTimestamp);
      ReadExecute(VersioningTemplate(scheme).value, o.includeCommitID, NewParts(version, commitID, o, t));
    }
  }

  /** The same point in time as far as the format can tell: civil fields, or unix time. */
  predicate SameTime(a: Time, b: Time, unixTimestamp: bool) {
    if unixTimestamp then a.unix == b.unix else a.civil == b.civil
  }

  /** The printed timestamp tells the time. */
  lemma TimestampInjective(a: Time, b: Time, unixTimestamp: bool)
    requires IsCivil(a.civil) && IsCivil(b.civil)
    requires unixTimestamp ==> a.unix >= 0 && b.unix >= 0
    ensures Timestamp(a, unixTimestamp) == Timestamp(b, unixTimestamp) <==> SameTime(a, b, unixTimestamp)
  {
    if unixTimestamp {
      ValueOfDigits(a.unix);
      ValueOfDigits(b.unix);
    } else {
      StampIsNumber(a.civil);
      StampIsNumber(b.civil);
      StampOrder(a.civil, b.civil);
    }
    hide Digits, Value, Stamp;
  }

  lemma SignedSign(n: int)
    ensures Signed(n) != "" && (Signed(n)[0] == '-' <==> n < 0)
  {
    hide Digits;
    if n >= 0 {
      assert IsDigit(Digits(n)[0]);
    }
  }

  /** Unix times print differently, before 1970 as well. */
  lemma SignedInjective(m: int, n: int)
    ensures Signed(m) == Signed(n) <==> m == n
  {
    hide Digits, Value;
    SignedSign(m);
    SignedSign(n);
    if Signed(m) == Signed(n) {
      if m < 0 && n < 0 {
        assert Digits(-m) == Signed(m)[1..] == Signed(n)[1..] == Digits(-n);
        ValueOfDigits(-m);
        ValueOfDigits(-n);
      } else if m >= 0 && n >= 0 {
        ValueOfDigits(m);
        ValueOfDigits(n);
      }
    }
  }

  /** Texts the template can be read back from: no timestamp separator in the timestamp, no commit separator
      in the commit. */
  lemma TemplateInjective(t: Template, p: Parts, q: Parts)
    requires p.timestamp != "" && q.timestamp != "" && (p.commitID == "" <==> q.commitID == "")
    requires Free(p.timestamp, t.beforeTimestamp) && Free(q.timestamp, t.beforeTimestamp)
    requires Free(p.commitID, t.beforeCommit) && Free(q.commitID, t.beforeCommit)
    requires Execute(t, p) == Execute(t, q)
    ensures p == q
  {
    hide SplitLast, Free;
    var front, other := p.version + [t.beforeTimestamp] + p.timestamp, q.version + [t.beforeTimestamp] + q.timestamp;
    if p.commitID == "" {
      assert Execute(t, p) == front && Execute(t, q) == other;
    } else {
      assert Execute(t, p) == front + [t.beforeCommit] + p.commitID && Execute(t, q) == other + [t.beforeCommit] + q.commitID;
      SplitLastOf(front, t.beforeCommit, p.commitID);
      SplitLastOf(other, t.beforeCommit, q.commitID);
    }
    SplitLastOf(p.version, t.beforeTimestamp, p.timestamp);
    SplitLastOf(q.version, t.beforeTimestamp, q.timestamp);
  }

  /** The dash in front of a number is the only character of a timestamp that is no digit. */
  predicate Printable(t: Template, time: Time, unixTimestamp: bool) {
    if unixTimestamp then t.beforeTimestamp == '-' ==> time.unix >= 0 else IsCivil(time.civil)
  }

  lemma TimestampFree(t: Template, time: Time, unixTimestamp: bool)
    requires IsTemplate(t) && Printable(t, time, unixTimestamp)
    ensures Timestamp(time, unixTimestamp) != "" && Free(Timestamp(time, unixTimestamp), t.beforeTimestamp)
  {
    hide Digits, Stamp;
    if unixTimestamp {
      var digits := Digits(if time.unix < 0 then -time.unix else time.unix);
      assert AllDigits(digits);
    } else {
      StampIsNumber(time.civil);
      assert AllDigits(Stamp(time.civil)) && Stamp(time.civil) != "" by { TimestampDigits(time, false); }
    }
  }

  lemma CommitFree(t: Template, commitID: string, o: Options)
    requires IsTemplate(t) && IsCommitID(commitID)
    ensures Free(CommitPart(commitID, o), t.beforeCommit) && (CommitPart(commitID, o) == "" <==> !o.includeCommitID)
  {
    assert AllHex(CommitPart(commitID, o));
  }

  /** For each scheme and fixed options, versions are equal exactly if base version, time and commit part
      are; with a dash in front of the timestamp this takes unix times from 1970 on. */
  lemma CloudVersionInjective(scheme: Scheme, v: string, w: string, c: string, d: string, o: Options, t: Time, u: Time)
    requires !scheme.UnknownScheme? && IsCommitID(c) && IsCommitID(d)
    requires Printable(VersioningTemplate(scheme).value, t, o.unixTimestamp)
    requires Printable(VersioningTemplate(scheme).value, u, o.unixTimestamp)
    ensures CalculateCloudVersion(scheme, v, c, o, t) == CalculateCloudVersion(scheme, w, d, o, u)
       <==> v == w && CommitPart(c, o) == CommitPart(d, o) && SameTime(t, u, o.unixTimestamp)
  {
    hide Timestamp, Execute, SameTime, CommitPart, Free, Printable;
    var template := VersioningTemplate(scheme).value;
    TimestampFree(template, t, o.unixTimestamp);
    TimestampFree(template, u, o.unixTimestamp);
    CommitFree(template, c, o);
    CommitFree(template, d, o);
    SameTimePrinted(template, t, u, o.unixTimestamp);
    if Execute(template, NewParts(v, c, o, t)) == Execute(template, NewParts(w, d, o, u)) {
      TemplateInjective(template, NewParts(v, c, o, t), NewParts(w, d, o, u));
    }
  }

  lemma SameTimePrinted(template: Template, t: Time, u: Time, unixTimestamp: bool)
    requires Printable(template, t, unixTimestamp) && Printable(template, u, unixTimestamp)
    ensures Timestamp(t, unixTimestamp) == Timestamp(u, unixTimestamp) <==> SameTime(t, u, unixTimestamp)
  {
    hide Stamp, Signed;
    if unixTimestamp {
      SignedInjective(t.unix, u.unix);
    } else {
      TimestampInjective(t, u, false);
    }
  }

  /** Before 1970 unix timestamps carry a sign: wherever a dash precedes the timestamp, every such version is
      also the version of another base and time. */
  lemma NegativeTimeCollides(scheme: Scheme, version: string, commitID: string, o: Options, t: Time, u: Time)
    requires !scheme.UnknownScheme? && VersioningTemplate(scheme).value.beforeTimestamp == '-' && IsCommitID(commitID)
    requires o.unixTimestamp && t.unix < 0 && u.unix == -t.unix
    ensures CalculateCloudVersion(scheme, version, commitID, o, t) == CalculateCloudVersion(scheme, version + "-", commitID, o, u)
  {
    hide Digits, CommitPart, Execute;
    var template, commit := VersioningTemplate(scheme).value, CommitPart(commitID, o);
    assert Timestamp(t, true) == "-" + Digits(u.unix) && Timestamp(u, true) == Digits(u.unix);
    DashMoves(template, version, Digits(u.unix), commit);
  }

  lemma DashMoves(t: Template, version: string, digits: string, commitID: string)
    requires t.beforeTimestamp == '-' && digits != ""
    ensures Execute(t, Parts(version, "-" + digits, commitID)) == Execute(t, Parts(version + "-", digits, commitID))
  {
    var tail := if commitID == "" then "" else [t.beforeCommit] + commitID;
    assert version + (['-'] + ("-" + digits) + tail) == (version + "-") + (['-'] + digits + tail);
  }

  /** Over all unix times, versions tell base version, time and commit part. */
  ghost predicate TellsUnixTimes(scheme: Scheme, o: Options)
    requires !scheme.UnknownScheme?
  {
    forall v, w, c, d, t, u ::
      IsCommitID(c) && IsCommitID(d) && CalculateCloudVersion(scheme, v, c, o, t) == CalculateCloudVersion(scheme, w, d, o, u)
      ==> v == w && CommitPart(c, o) == CommitPart(d, o) && t.unix == u.unix
  }

  /** Of the schemes only pep440, which puts a dot in front of the timestamp, tells all unix times apart. */
  lemma UnixTimesTold(scheme: Scheme, o: Options)
    requires !scheme.UnknownScheme? && o.unixTimestamp
    ensures TellsUnixTimes(scheme, o) <==> scheme == Pep440
  {
    hide CalculateCloudVersion, CommitPart;
    if VersioningTemplate(scheme).value.beforeTimestamp == '-' {
      var commitID := seq(40, _ => '0');
      var time := Time(Civil(0, 0, 0, 0, 0, 0), -1);
      NegativeTimeCollides(scheme, "", commitID, o, time, time.(unix := 1));
    } else {
      forall v, w, c, d, t, u | IsCommitID(c) && IsCommitID(d)
                                && CalculateCloudVersion(scheme, v, c, o, t) == CalculateCloudVersion(scheme, w, d, o, u)
        ensures v == w && CommitPart(c, o) == CommitPart(d, o) && t.unix == u.unix
      {
        CloudVersionInjective(scheme, v, w, c, d, o, t, u);
      }
    }
  }

  // ---------------------------------------------------------------- the versions, scheme by scheme

  /** The timestamp as it is printed: the fields padded to 4 and 2 digits, or the unix time. */
  lemma TimestampText(t: Time)
    ensures Timestamp(t, false)
         == Pad(t.civil.year, 4) + Pad(t.civil.month, 2) + Pad(t.civil.day, 2)
            + Pad(t.civil.hour, 2) + Pad(t.civil.minute, 2) + Pad(t.civil.second, 2)
    ensures t.unix >= 0 ==> Timestamp(t, true) == Digits(t.unix)
    ensures t.unix < 0 ==> Timestamp(t, true) == "-" + Digits(-t.unix)
  {
  }

  /** The version in each scheme, with and without the commit; a short commit has its first seven digits. */
  lemma VersionText(version: string, commitID: string, o: Options, t: Time)
    requires IsCommitID(commitID)
    ensures var stamp := Timestamp(t, o.unixTimestamp);
            var commit := if o.shortCommitID then commitID[..7] else commitID;
            && CalculateCloudVersion(Docker, version, commitID, o, t)
               == Ok(version + "-" + stamp + if o.includeCommitID then "-" + commit else "")
            && CalculateCloudVersion(Maven, version, commitID, o, t)
               == Ok(version + "-" + stamp + if o.includeCommitID then "_" + commit else "")
            && CalculateCloudVersion(Pep440, version, commitID, o, t)
               == Ok(version + "." + stamp + if o.includeCommitID then "+" + commit else "")
            && CalculateCloudVersion(Semver2, version, commitID, o, t)
               == Ok(version + "-" + stamp + if o.includeCommitID then "+" + commit else "")
  {
    StampNotEmpty(t, o.unixTimestamp);
    hide Timestamp;
    ExecuteText(Template('-', '-'), NewParts(version, commitID, o, t));
    ExecuteText(Template('-', '_'), NewParts(version, commitID, o, t));
    ExecuteText(Template('.', '+'), NewParts(version, commitID, o, t));
    ExecuteText(Template('-', '+'), NewParts(version, commitID, o, t));
    hide Execute;
  }

  lemma StampNotEmpty(t: Time, unixTimestamp: bool)
    ensures Timestamp(t, unixTimestamp) != ""
  {
    hide Digits;
  }

  lemma ExecuteText(t: Template, p: Parts)
    requires p.timestamp != ""
    ensures Execute(t, p)
         == p.version + [t.beforeTimestamp] + p.timestamp + if p.commitID == "" then "" else [t.beforeCommit] + p.commitID
  {
  }

  // docker

  /** What may stand in the tag of a docker image: letters, digits, underscores, periods and dashes. */
  predicate IsTagChar(c: char) {
    'a' <= c <= 'z' || 'A' <= c <= 'Z' || '0' <= c <= '9' || c == '_' || c == '.' || c == '-'
  }

  /** A tag does not start with a period or a dash, and has at most 128 characters. */
  predicate IsDockerTag(s: string) {
    1 <= |s| <= 128 && s[0] != '.' && s[0] != '-' && forall i :: 0 <= i < |s| ==> IsTagChar(s[i])
  }

  lemma DigitsOnly(t: Time, unixTimestamp: bool)
    requires unixTimestamp || IsCivil(t.civil)
    ensures forall i :: 0 <= i < |Timestamp(t, unixTimestamp)| ==> IsTagChar(Timestamp(t, unixTimestamp)[i])
    ensures Timestamp(t, unixTimestamp) != ""
  {
    StampNotEmpty(t, unixTimestamp);
    hide Digits, Stamp, Value;
    if !unixTimestamp {
      StampIsNumber(t.civil);
      assert AllDigits(Stamp(t.civil));
    }
  }

  /** A docker version is a valid tag exactly if the base version could start one and is not too long; unix times
      before 1970 included. */
  lemma DockerVersionIsTag(version: string, commitID: string, o: Options, t: Time)
    requires IsCommitID(commitID) && (o.unixTimestamp || IsCivil(t.civil)) && version != ""
    ensures var v := CalculateCloudVersion(Docker, version, commitID, o, t).value;
            IsDockerTag(v)
            <==> version[0] != '.' && version[0] != '-' && (forall i :: 0 <= i < |version| ==> IsTagChar(version[i])) && |v| <= 128
  {
    hide CalculateCloudVersion, Timestamp, IsDockerTag, IsTagChar, IsHex;
    VersionText(version, commitID, o, t);
    DigitsOnly(t, o.unixTimestamp);
    var commit := if o.shortCommitID then commitID[..7] else commitID;
    CommitTagChars(commitID);
    if o.includeCommitID {
      DashTagChars(commit);
    }
    TagChars(version, Timestamp(t, o.unixTimestamp), if o.includeCommitID then "-" + commit else "");
  }

  lemma CommitTagChars(commitID: string)
    requires IsCommitID(commitID)
    ensures forall i :: 0 <= i < |commitID| ==> IsTagChar(commitID[i])
    ensures forall i :: 0 <= i < |commitID[..7]| ==> IsTagChar(commitID[..7][i])
  {
  }

  lemma DashTagChars(s: string)
    requires forall i :: 0 <= i < |s| ==> IsTagChar(s[i])
    ensures forall i :: 0 <= i < |"-" + s| ==> IsTagChar(("-" + s)[i])
  {
  }

  lemma TagChars(version: string, stamp: string, tail: string)
    requires version != "" && forall i :: 0 <= i < |stamp| ==> IsTagChar(stamp[i])
    requires forall i :: 0 <= i < |tail| ==> IsTagChar(tail[i])
    ensures var v := version + "-" + stamp + tail;
            IsDockerTag(v)
            <==> version[0] != '.' && version[0] != '-' && (forall i :: 0 <= i < |version| ==> IsTagChar(version[i])) && |v| <= 128
  {
    var v := version + "-" + stamp + tail;
    assert IsTagChar('-');
    hide IsTagChar;
    forall i | 0 <= i < |v|
      ensures i < |version| ==> v[i] == version[i]
      ensures i >= |version| ==> IsTagChar(v[i])
    {
      if i > |version| + |stamp| {
        assert v[i] == tail[i - |version| - 1 - |stamp|];
      } else if i > |version| {
        assert v[i] == stamp[i - |version| - 1];
      }
    }
    assert v[0] == version[0];
  }

  // pep440

  /** The release numbers of a python version N(.N)*, and its local version label, if there is one. */
  datatype PythonVersion = PythonVersion(release: seq<nat>, localLabel: Option<string>)

  function ReadNumbers(parts: seq<string>): Option<seq<nat>> {
    if parts == [] then Some([])
    else if parts[0] == "" || !AllDigits(parts[0]) then None
    else match ReadNumbers(parts[1..])
      case None => None
      case Some(rest) => Some([Value(parts[0])] + rest)
  }

  /** A label has letters, digits and single dots; labels made of commits have no dot. */
  predicate IsLabel(s: string) {
    s != "" && forall i :: 0 <= i < |s| ==> 'a' <= s[i] <= 'z' || '0' <= s[i] <= '9'
  }

  function ReadPython(s: string): Option<PythonVersion> {
    var plus := FirstIndex(s, '+');
    match ReadNumbers(Split(s[..plus], '.'))
    case None => None
    case Some(release) =>
      if plus == |s| then Some(PythonVersion(release, None))
      else if IsLabel(s[plus + 1..]) then Some(PythonVersion(release, Some(s[plus + 1..])))
      else None
  }

  /** Numbers separated by dots. */
  function NumbersText(numbers: seq<nat>): string
    requires numbers != []
  {
    if |numbers| == 1 then Digits(numbers[0]) else Digits(numbers[0]) + "." + NumbersText(numbers[1..])
  }

  lemma {:induction false} NumbersRead(numbers: seq<nat>, stamp: string)
    requires numbers != [] && stamp != "" && AllDigits(stamp)
    ensures ReadNumbers(Split(NumbersText(numbers) + "." + stamp, '.')) == Some(numbers + [Value(stamp)])
    ensures Free(NumbersText(numbers), '+')
  {
    hide Split, Value, Digits, Free;
    var first := Digits(numbers[0]);
    ValueOfDigits(numbers[0]);
    FreeDigits(first, '.');
    FreeDigits(first, '+');
    FreeDigits(stamp, '.');
    if |numbers| == 1 {
      SplitOne(stamp, '.');
      SplitMore(first, '.', stamp);
      assert NumbersText(numbers) + "." + stamp == first + ['.'] + stamp;
      NumberMore(first, [stamp]);
      NumberMore(stamp, []);
      assert [stamp] + [] == [stamp] && [Value(stamp)] + [] == [Value(stamp)];
      assert numbers + [Value(stamp)] == [numbers[0]] + [Value(stamp)];
    } else {
      var rest := numbers[1..];
      NumbersRead(rest, stamp);
      SplitMore(first, '.', NumbersText(rest) + "." + stamp);
      assert NumbersText(numbers) + "." + stamp == first + ['.'] + (NumbersText(rest) + "." + stamp);
      NumberMore(first, Split(NumbersText(rest) + "." + stamp, '.'));
      assert numbers + [Value(stamp)] == [numbers[0]] + (rest + [Value(stamp)]);
      FreeText(first, ".", NumbersText(rest), '+');
    }
  }

  lemma FreeText(a: string, b: string, d: string, c: char)
    requires Free(a, c) && Free(d, c) && b == "." && c != '.'
    ensures Free(a + b + d, c)
  {
  }

  lemma FreeDigits(s: string, c: char)
    requires AllDigits(s) && !IsDigit(c)
    ensures Free(s, c)
  {
  }

  lemma NumberMore(first: string, rest: seq<string>)
    requires first != "" && AllDigits(first)
    ensures ReadNumbers([first] + rest)
         == match ReadNumbers(rest) case None => None case Some(more) => Some([Value(first)] + more)
  {
    assert ([first] + rest)[1..] == rest;
  }

  /** A pep440 version of a base N(.N)* is a release with the timestamp as last number and the commit as label. */
  lemma Pep440VersionReads(numbers: seq<nat>, commitID: string, o: Options, t: Time)
    requires numbers != [] && IsCommitID(commitID) && (if o.unixTimestamp then t.unix >= 0 else IsCivil(t.civil))
    ensures ReadPython(CalculateCloudVersion(Pep440, NumbersText(numbers), commitID, o, t).value)
         == Some(PythonVersion(numbers + [if o.unixTimestamp then t.unix else StampNumber(t.civil)],
                               if !o.includeCommitID then None
                               else if o.shortCommitID then Some(commitID[..7]) else Some(commitID)))
  {
    hide NumbersText, Timestamp, CalculateCloudVersion, ReadPython, StampNumber, AllHex;
    StampReads(t, o.unixTimestamp);
    VersionText(NumbersText(numbers), commitID, o, t);
    var commit := if o.shortCommitID then commitID[..7] else commitID;
    CommitIsLabel(commitID);
    PythonReads(numbers, Timestamp(t, o.unixTimestamp), commit);
    if !o.includeCommitID {
      assert NumbersText(numbers) + "." + Timestamp(t, o.unixTimestamp) + "" == NumbersText(numbers) + "." + Timestamp(t, o.unixTimestamp);
    }
  }

  lemma StampReads(t: Time, unixTimestamp: bool)
    requires if unixTimestamp then t.unix >= 0 else IsCivil(t.civil)
    ensures Timestamp(t, unixTimestamp) != "" && AllDigits(Timestamp(t, unixTimestamp))
    ensures Value(Timestamp(t, unixTimestamp)) == if unixTimestamp then t.unix else StampNumber(t.civil)
  {
    hide Digits, Value, Stamp, StampNumber;
    StampNotEmpty(t, unixTimestamp);
    if unixTimestamp { ValueOfDigits(t.unix); } else { StampIsNumber(t.civil); }
  }

  lemma CommitIsLabel(commitID: string)
    requires IsCommitID(commitID)
    ensures IsLabel(commitID) && IsLabel(commitID[..7])
  {
  }

  lemma PythonReads(numbers: seq<nat>, stamp: string, commit: string)
    requires numbers != [] && stamp != "" && AllDigits(stamp) && IsLabel(commit)
    ensures ReadPython(NumbersText(numbers) + "." + stamp) == Some(PythonVersion(numbers + [Value(stamp)], None))
    ensures ReadPython(NumbersText(numbers) + "." + stamp + ("+" + commit))
         == Some(PythonVersion(numbers + [Value(stamp)], Some(commit)))
  {
    hide NumbersText, ReadPython, Split, ReadNumbers, Free, Value, IsLabel;
    NumbersRead(numbers, stamp);
    FreeDigits(stamp, '+');
    FreeText(NumbersText(numbers), ".", stamp, '+');
    PythonFront(NumbersText(numbers) + "." + stamp, commit);
  }

  lemma PythonFront(front: string, commit: string)
    requires Free(front, '+') && IsLabel(commit)
    ensures ReadPython(front) == match ReadNumbers(Split(front, '.'))
                                 case None => None
                                 case Some(release) => Some(PythonVersion(release, None))
    ensures ReadPython(front + ("+" + commit)) == match ReadNumbers(Split(front, '.'))
                                                  case None => None
                                                  case Some(release) => Some(PythonVersion(release, Some(commit)))
  {
    hide Split, ReadNumbers;
    FirstIndexOf(front, '+', "");
    FirstIndexOf(front, '+', commit);
    assert front[..|front|] == front;
    var s := front + ("+" + commit);
    assert s == front + ['+'] + commit;
    assert s[..|front|] == front && s[|front| + 1..] == commit;
  }

  // maven

  /** Base and qualifier around the first dash. */
  function ReadMaven(s: string): Option<(string, string)> {
    var dash := FirstIndex(s, '-');
    if dash == |s| then None else Some((s[..dash], s[dash + 1..]))
  }

  /** A maven version splits at its first dash into the base version and a qualifier: the timestamp, and the commit
      behind an underscore. */
  lemma MavenVersionReads(version: string, commitID: string, o: Options, t: Time)
    requires IsCommitID(commitID) && Free(version, '-')
    ensures ReadMaven(CalculateCloudVersion(Maven, version, commitID, o, t).value)
         == Some((version, Timestamp(t, o.unixTimestamp)
                           + if !o.includeCommitID then "" else if o.shortCommitID then "_" + commitID[..7] else "_" + commitID))
  {
    hide CalculateCloudVersion, Timestamp, ReadMaven, Free, AllHex;
    VersionText(version, commitID, o, t);
    var commit := if o.shortCommitID then commitID[..7] else commitID;
    QualifierReads(version, Timestamp(t, o.unixTimestamp), if o.includeCommitID then "_" + commit else "");
  }

  lemma QualifierReads(version: string, stamp: string, tail: string)
    requires Free(version, '-')
    ensures ReadMaven(version + "-" + stamp + tail) == Some((version, stamp + tail))
  {
    var s := version + "-" + stamp + tail;
    FirstIndexOf(version, '-', stamp + tail);
    hide Free;
    assert s == version + ['-'] + (stamp + tail);
    assert s[..|version|] == version && s[|version| + 1..] == stamp + tail;
  }
}
