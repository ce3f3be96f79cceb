/** Committing, tagging and pushing the new version: the worktree, the local repository and the swap of
    the remote "origin" while pushing. */
module Tagging {
  import opened Text

  // ---------------------------------------------------------------- excludes

  datatype MatchResult = BadPattern | NoMatch | Match

  /** Glob matching, pattern first. */
  type Glob = (string, string) -> MatchResult

  ghost predicate Excluded(path: string, excludes: seq<string>, glob: Glob) {
    exists i :: 0 <= i < |excludes| && (excludes[i] == path || glob(excludes[i], path) == Match)
  }

  /** An invalid pattern excludes nothing, and does not stop the search. */
  method ShouldExclude(path: string, excludes: seq<string>, glob: Glob) returns (yes: bool)
    ensures yes <==> Excluded(path, excludes, glob)
  {
    for i := 0 to |excludes|
      invariant forall j :: 0 <= j < i ==> excludes[j] != path && glob(excludes[j], path) != Match
    {
      if path == excludes[i] {
        return true;
      }
      match glob(excludes[i], path)
      case BadPattern =>
      case NoMatch =>
      case Match => return true;
    }
    yes := false;
  }

  // ---------------------------------------------------------------- worktree

  datatype Code = Unmodified | Untracked | Modified | Added | Deleted | Renamed

  datatype FileStatus = FileStatus(staging: Code, worktree: Code)

  /** The path goes into the next commit. */
  predicate IsStaged(s: FileStatus) {
    s.staging != Unmodified && s.staging != Untracked
  }

  predicate IsChanged(s: FileStatus) {
    s.worktree != Unmodified || s.staging != Unmodified
  }

  /** A tracked file with changes not yet staged. */
  predicate IsTrackedChange(s: FileStatus) {
    s.worktree == Modified || s.worktree == Deleted
  }

  function AfterAdd(s: FileStatus): FileStatus {
    if s.worktree == Unmodified then s
    else FileStatus(if s.worktree == Untracked then Added else s.worktree, Unmodified)
  }

  type Status = map<string, FileStatus>

  function StagedPaths(status: Status): set<string> {
    set p | p in status && IsStaged(status[p])
  }

  datatype CommitReply = CommitRefused | Committed(hash: string)

  class Worktree {
    var status: Status
    var commits: seq<set<string>>  // the paths of every commit made

    /** Stages one path, unless git fails to. */
    method AddWithOptions(path: string, fails: bool)
      requires path in status
      modifies this`status
      ensures status == if fails then old(status) else old(status)[path := AfterAdd(old(status)[path])]
    {
      if !fails {
        status := status[path := AfterAdd(status[path])];
      }
    }

    /** Commits what is staged; with `all`, tracked changes are staged first. */
    method Commit(all: bool, reply: CommitReply) returns (ok: bool)
      modifies this`commits
      ensures ok <==> reply.Committed?
      ensures commits == if ok then old(commits) + [if all then StagedPaths(status) + TrackedPaths(status) else StagedPaths(status)]
                         else old(commits)
    {
      ok := reply.Committed?;
      if ok {
        commits := commits + [if all then StagedPaths(status) + TrackedPaths(status) else StagedPaths(status)];
      }
    }
  }

  function TrackedPaths(status: Status): set<string> {
    set p | p in status && IsTrackedChange(status[p])
  }

  /** What git may answer while committing. */
  datatype CommitFaults = CommitFaults(statusFails: bool, addFails: string -> bool, commit: CommitReply)

  /** The paths that get staged one by one: changed, not excluded, and git does not fail on them. */
  ghost predicate GetsAdded(path: string, status: Status, excludes: seq<string>, glob: Glob, faults: CommitFaults) {
    path in status && IsChanged(status[path]) && !Excluded(path, excludes, glob) && !faults.addFails(path)
  }

  /** The status when the paths outside `todo` have been gone through. */
  ghost predicate AddedOutside(now: Status, start: Status, todo: set<string>, excludes: seq<string>, glob: Glob, faults: CommitFaults) {
    now.Keys == start.Keys
    && forall p :: p in start ==>
         now[p] == if p !in todo && GetsAdded(p, start, excludes, glob, faults) then AfterAdd(start[p]) else start[p]
  }

  /** What ends up in the commit. */
  ghost function CommittedPaths(status: Status, excludes: seq<string>, glob: Glob, faults: CommitFaults): set<string> {
    if excludes == [] then StagedPaths(status) + TrackedPaths(status)
    else set p | p in status && (IsStaged(status[p])
                                 || (GetsAdded(p, status, excludes, glob, faults) && status[p].worktree != Unmodified))
  }

  datatype CommitOutcome = StatusFailed | CommitFailed | CommitDone(hash: string)

  method StageChanges(worktree: Worktree, excludes: seq<string>, glob: Glob, faults: CommitFaults)
    modifies worktree`status
    ensures AddedOutside(worktree.status, old(worktree.status), {}, excludes, glob, faults)
  {
    var start := worktree.status;
    var todo := start.Keys;
    while todo != {}
      invariant todo <= start.Keys
      invariant AddedOutside(worktree.status, start, todo, excludes, glob, faults)
      decreases |todo|
    {
      var path :| path in todo;
      todo := todo - {path};
      var s := start[path];
      if IsChanged(s) {
        var skip := ShouldExclude(path, excludes, glob);
        if !skip {
          worktree.AddWithOptions(path, faults.addFails(path));
        }
      }
    }
  }

  /** The paths are gone through in whatever order; a path that cannot be staged is passed over. */
  method AddAndCommit(worktree: Worktree, excludes: seq<string>, glob: Glob, faults: CommitFaults)
    returns (outcome: CommitOutcome)
    modifies worktree
    ensures outcome == if excludes != [] && faults.statusFails then StatusFailed
                       else if faults.commit.CommitRefused? then CommitFailed
                       else CommitDone(faults.commit.hash)
    ensures worktree.commits == if outcome.CommitDone?
                                then old(worktree.commits) + [CommittedPaths(old(worktree.status), excludes, glob, faults)]
                                else old(worktree.commits)
  {
    hide GetsAdded;
    ghost var start := worktree.status;
    if excludes != [] {
      if faults.statusFails {
        return StatusFailed;
      }
      StageChanges(worktree, excludes, glob, faults);
      StagedAfterwards(worktree.status, start, excludes, glob, faults);
    }
    var ok := worktree.Commit(excludes == [], faults.commit);
    outcome := if ok then CommitDone(faults.commit.hash) else CommitFailed;
  }

  lemma StagedAfterwards(now: Status, start: Status, excludes: seq<string>, glob: Glob, faults: CommitFaults)
    requires AddedOutside(now, start, {}, excludes, glob, faults) && excludes != []
    ensures StagedPaths(now) == CommittedPaths(start, excludes, glob, faults)
  {
  }

  /** With nothing staged before and no failure to stage, the commit holds exactly the changed paths that
      are not excluded, or, without excludes, the tracked changes. */
  lemma CommitIsChangesMinusExcludes(status: Status, excludes: seq<string>, glob: Glob, faults: CommitFaults)
    requires forall p :: p in status ==> (status[p].staging == Unmodified || status[p].staging == Untracked) && !faults.addFails(p)
    requires forall p :: p in status ==> (status[p].worktree == Untracked <==> status[p].staging == Untracked)
    ensures CommittedPaths(status, excludes, glob, faults)
         == if excludes == [] then set p | p in status && (status[p].worktree == Modified || status[p].worktree == Deleted)
            else set p | p in status && (status[p].worktree != Unmodified || status[p].staging != Unmodified)
                         && forall i :: 0 <= i < |excludes| ==> excludes[i] != p && glob(excludes[i], p) != Match
  {
    forall p ensures Excluded(p, excludes, glob) <==> !forall i :: 0 <= i < |excludes| ==> excludes[i] != p && glob(excludes[i], p) != Match {
    }
    hide Excluded;
  }

  // ---------------------------------------------------------------- URLs

  /** The first occurrence of `pat` replaced, or s if there is none. */
  function ReplaceFirst(s: string, pat: string, text: string): string
    decreases |s|
  {
    if pat <= s then text + s[|pat|..]
    else if s == "" then ""
    else [s[0]] + ReplaceFirst(s[1..], pat, text)
  }

  function ConvertHTTPToSSHURL(url: string): string {
    ReplaceFirst(ReplaceFirst(url, "https://", "git@"), "/", ":")
  }

  predicate NoSlash(s: string) {
    forall i :: 0 <= i < |s| ==> s[i] != '/'
  }

  lemma {:induction false} FirstSlash(front: string, tail: string)
    requires NoSlash(front)
    ensures ReplaceFirst(front + "/" + tail, "/", ":") == front + ":" + tail
  {
    var s := front + "/" + tail;
    if front == "" {
      assert s == "/" + tail;
      assert s[1..] == tail;
    } else {
      FirstSlash(front[1..], tail);
      assert s[0] == front[0];
      assert s[1..] == front[1..] + "/" + tail;
      assert !("/" <= s);
      assert [front[0]] + (front[1..] + ":" + tail) == front + ":" + tail;
    }
  }

  /** The name of a host, without credentials and port. */
  predicate IsHost(s: string) {
    s != "" && forall i :: 0 <= i < |s| ==> s[i] != '@' && s[i] != ':' && s[i] != '/'
  }

  /** The host an authority names: behind its last at sign and up to the first colon after it. */
  function UrlHost(authority: string): string {
    var hostPort := match SplitLast(authority, '@') case None => authority case Some((_, tail)) => tail;
    hostPort[..FirstIndex(hostPort, ':')]
  }

  lemma UrlHostShorter(authority: string)
    requires UrlHost(authority) != ""
    ensures |UrlHost(authority)| <= |authority|
    ensures |UrlHost(authority)| == |authority| <==> UrlHost(authority) == authority
    ensures NoSlash(authority) ==> (UrlHost(authority) == authority <==> IsHost(authority))
  {
    if SplitLast(authority, '@').Some? {
      SplitLastJoins(authority, '@');
      assert '@' in authority;
      assert exists i :: 0 <= i < |authority| && authority[i] == '@';
    }
    var hostPort := match SplitLast(authority, '@') case None => authority case Some((_, tail)) => tail;
    var colon := FirstIndex(hostPort, ':');
    assert hostPort[..colon] == hostPort <==> colon == |hostPort|;
  }

  /** The address of a repository on an https server: all of its authority stays in front of the path. It is the
      scp-like ssh address of the URL's own host and path exactly if the authority is nothing but the host: no
      user, no password, no port. */
  lemma HttpsBecomesSsh(authority: string, path: string)
    requires NoSlash(authority) && UrlHost(authority) != ""
    ensures ConvertHTTPToSSHURL("https://" + authority + "/" + path) == "git@" + authority + ":" + path
    ensures ConvertHTTPToSSHURL("https://" + authority + "/" + path) == "git@" + UrlHost(authority) + ":" + path
       <==> IsHost(authority)
  {
    AuthorityKept(authority, path);
    UrlHostShorter(authority);
    hide ConvertHTTPToSSHURL, UrlHost, IsHost;
  }

  lemma AuthorityKept(authority: string, path: string)
    requires NoSlash(authority)
    ensures ConvertHTTPToSSHURL("https://" + authority + "/" + path) == "git@" + authority + ":" + path
  {
    var url := "https://" + authority + "/" + path;
    assert url[|"https://"|..] == authority + "/" + path;
    assert "https://" <= url;
    FirstSlash("git@" + authority, path);
    assert "git@" + (authority + "/" + path) == "git@" + authority + "/" + path;
  }

  /** The text has the shape of an scp-like address of the user git: a host, a colon, and a path. */
  ghost predicate IsSshAddress(s: string) {
    "git@" <= s && exists k :: 4 < k < |s| && s[k] == ':' && IsHost(s[4..k])
  }

  predicate IsDelimiter(c: char) {
    c == '@' || c == ':' || c == '/'
  }

  /** The first character that ends a host name, or |s|. */
  function FirstDelimiter(s: string): (d: nat)
    ensures d <= |s| && (d < |s| ==> IsDelimiter(s[d]))
    ensures forall i :: 0 <= i < d ==> !IsDelimiter(s[i])
  {
    if s == "" || IsDelimiter(s[0]) then 0 else FirstDelimiter(s[1..]) + 1
  }

  /** An https URL whose authority starts with a name that a colon or the path follows: its host, or the user of
      credentials with a password. */
  predicate StartsWithName(url: string) {
    "https://" <= url
    && var rest := url[8..];
       0 < FirstDelimiter(rest) < |rest| && rest[FirstDelimiter(rest)] != '@'
  }

  /** Replacing the first slash changes nothing else. */
  lemma {:induction false} SlashReplaced(s: string)
    ensures var r := ReplaceFirst(s, "/", ":");
            && |r| == |s|
            && forall i :: 0 <= i < |s| ==> r[i] == if s[i] == '/' && NoSlash(s[..i]) then ':' else s[i]
  {
    if s != "" && s[0] != '/' {
      SlashReplaced(s[1..]);
      assert !("/" <= s);
      forall i | 0 < i < |s| ensures NoSlash(s[..i]) <==> NoSlash(s[1..][..i - 1]) {
        assert s[..i] == [s[0]] + s[1..][..i - 1];
        NoSlashBehind([s[0]], s[1..][..i - 1]);
      }
    } else if s != "" {
      assert "/" <= s;
      forall i | 0 < i < |s| ensures !NoSlash(s[..i]) {
        assert s[..i][0] == '/';
      }
    }
  }

  lemma HostInFront(rest: string, k: nat)
    requires k < |rest|
    ensures var r := ReplaceFirst(rest, "/", ":");
            |r| == |rest| && (k > 0 && r[k] == ':' && IsHost(r[..k]) <==> 0 < FirstDelimiter(rest) == k && rest[k] != '@')
  {
    SlashReplaced(rest);
    var r := ReplaceFirst(rest, "/", ":");
    hide ReplaceFirst, FirstDelimiter;
    if k > 0 && r[k] == ':' && IsHost(r[..k]) {
      assert forall i :: 0 <= i < k ==> r[i] == r[..k][i] && !IsDelimiter(r[i]);
      HostKept(rest, r, k);
    } else if 0 < FirstDelimiter(rest) == k && rest[k] != '@' {
      assert forall i :: 0 <= i < k ==> r[i] == rest[i] && !IsDelimiter(rest[i]);
      assert NoSlash(rest[..k]);
      assert forall i :: 0 <= i < k ==> r[..k][i] == rest[i];
    }
  }

  lemma {:induction false} HostKept(rest: string, r: string, k: nat)
    requires |r| == |rest| && k <= |r| && forall i :: 0 <= i < k ==> !IsDelimiter(r[i])
    requires forall i :: 0 <= i < |rest| ==> r[i] == if rest[i] == '/' && NoSlash(rest[..i]) then ':' else rest[i]
    ensures forall i :: 0 <= i < k ==> rest[i] == r[i]
    ensures NoSlash(rest[..k])
  {
    if k > 0 {
      HostKept(rest, r, k - 1);
    }
  }

  lemma NoSlashBehind(a: string, b: string)
    requires NoSlash(a)
    ensures NoSlash(a + b) <==> NoSlash(b)
  {
    if NoSlash(a + b) {
      assert forall i :: 0 <= i < |b| ==> b[i] == (a + b)[|a| + i];
    }
  }

  lemma UserFirst(rest: string)
    ensures ReplaceFirst("git@" + rest, "/", ":") == "git@" + ReplaceFirst(rest, "/", ":")
  {
    SlashReplaced("git@" + rest);
    SlashReplaced(rest);
    var s, r, q := "git@" + rest, ReplaceFirst("git@" + rest, "/", ":"), ReplaceFirst(rest, "/", ":");
    hide ReplaceFirst;
    forall i | 0 <= i < |s| ensures r[i] == ("git@" + q)[i] {
      if i >= 4 {
        assert s[i] == rest[i - 4] && s[..i] == "git@" + rest[..i - 4];
        NoSlashBehind("git@", rest[..i - 4]);
      }
    }
  }

  /** Among the URLs the swap is made for, exactly the https ones that start with a name followed by a colon or
      the path get the shape of an ssh address. The shape takes that name for the host, and all behind the first
      colon for the path, be it a password or a port. */
  lemma ShapedLikeSsh(url: string)
    requires "http" <= url
    ensures IsSshAddress(ConvertHTTPToSSHURL(url)) <==> StartsWithName(url)
  {
    var once := ReplaceFirst(url, "https://", "git@");
    if "https://" <= url {
      var rest := url[8..];
      assert once == "git@" + rest;
      UserFirst(rest);
      HttpsAddress(rest);
    } else {
      OthersStayHttp(url);
    }
  }

  lemma OthersStayHttp(url: string)
    requires "http" <= url && !("https://" <= url)
    ensures ConvertHTTPToSSHURL(url) != "" && ConvertHTTPToSSHURL(url)[0] == 'h'
  {
    var once := ReplaceFirst(url, "https://", "git@");
    assert once[0] == url[0] == 'h';
    KeepsFront(once, 1);
    assert ConvertHTTPToSSHURL(url)[0] == ConvertHTTPToSSHURL(url)[..1][0] == 'h';
  }

  /** What follows the scheme of an http or https URL. */
  function UrlRest(url: string): Option<string> {
    if "https://" <= url then Some(url[|"https://"|..])
    else if "http://" <= url then Some(url[|"http://"|..])
    else None
  }

  /** The authority in front of the path, if there is a path. */
  function Authority(rest: string): Option<string> {
    var slash := FirstIndex(rest, '/');
    if slash == |rest| then None else Some(rest[..slash])
  }

  /** The ssh address of the host and the path that a URL names. */
  predicate IsAddressOfUrl(address: string, url: string) {
    match UrlRest(url)
    case None => false
    case Some(rest) =>
      match Authority(rest)
      case None => false
      case Some(authority) =>
        UrlHost(authority) != "" && address == "git@" + UrlHost(authority) + ":" + rest[|authority| + 1..]
  }

  /** Among the URLs the swap is made for, the conversion gives the ssh address of the host and the path of
      exactly those that are https URLs with a path and whose authority is nothing but the host. */
  lemma OnlyHttpsBecomesSsh(url: string)
    requires "http" <= url
    ensures IsAddressOfUrl(ConvertHTTPToSSHURL(url), url)
       <==> "https://" <= url && Authority(url[8..]).Some? && IsHost(Authority(url[8..]).value)
  {
    hide ConvertHTTPToSSHURL, UrlHost, IsHost;
    if "https://" <= url {
      if Authority(url[8..]).Some? {
        HttpsAddressOfUrl(url);
      }
    } else {
      OthersStayHttp(url);
    }
  }

  lemma HttpsAddressOfUrl(url: string)
    requires "https://" <= url && Authority(url[8..]).Some?
    ensures IsAddressOfUrl(ConvertHTTPToSSHURL(url), url) <==> IsHost(Authority(url[8..]).value)
  {
    var rest := url[8..];
    var authority := Authority(rest).value;
    var path := rest[|authority| + 1..];
    assert NoSlash(authority);
    if IsHost(authority) { HostIsHost(authority); }
    hide ConvertHTTPToSSHURL, UrlHost, IsHost, FirstIndex;
    assert rest == authority + "/" + path;
    UrlIs(url, authority, path);
    if UrlHost(authority) != "" {
      HttpsBecomesSsh(authority, path);
    }
  }

  lemma UrlIs(url: string, authority: string, path: string)
    requires "https://" <= url && url[8..] == authority + "/" + path
    ensures url == "https://" + authority + "/" + path
  {
    assert url == "https://" + url[8..];
  }

  /** A plain host names itself. */
  lemma HostIsHost(host: string)
    requires IsHost(host)
    ensures UrlHost(host) == host
  {
  }

  lemma BehindUser(user: string, r: string, k: nat)
    requires k < |r|
    ensures (user + r)[|user| + k] == r[k] && (user + r)[|user|..|user| + k] == r[..k]
  {
  }

  lemma AddressHost(r: string)
    ensures IsSshAddress("git@" + r) <==> exists k :: 0 < k < |r| && r[k] == ':' && IsHost(r[..k])
  {
    hide IsHost;
    var s := "git@" + r;
    if IsSshAddress(s) {
      var k :| 4 < k < |s| && s[k] == ':' && IsHost(s[4..k]);
      BehindUser("git@", r, k - 4);
    }
    if k :| 0 < k < |r| && r[k] == ':' && IsHost(r[..k]) {
      BehindUser("git@", r, k);
      assert s[4 + k] == ':' && IsHost(s[4..4 + k]);
    }
  }

  lemma HttpsAddress(rest: string)
    ensures IsSshAddress("git@" + ReplaceFirst(rest, "/", ":"))
       <==> 0 < FirstDelimiter(rest) < |rest| && rest[FirstDelimiter(rest)] != '@'
  {
    hide ReplaceFirst, FirstDelimiter, IsHost, IsSshAddress;
    var r := ReplaceFirst(rest, "/", ":");
    AddressHost(r);
    SlashReplaced(rest);
    forall k | 0 <= k < |rest|
      ensures k > 0 && r[k] == ':' && IsHost(r[..k]) <==> 0 < FirstDelimiter(rest) == k && rest[k] != '@'
    {
      HostInFront(rest, k);
    }
  }

  /** Text without a slash in front stays in front. */
  lemma KeepsFront(s: string, n: nat)
    requires n <= |s| && NoSlash(s[..n])
    ensures |ReplaceFirst(s, "/", ":")| >= n && ReplaceFirst(s, "/", ":")[..n] == s[..n]
  {
    SlashReplaced(s);
    hide ReplaceFirst;
    assert forall i :: 0 <= i < n ==> s[..n][i] == s[i];
  }

  // ---------------------------------------------------------------- repository

  datatype RemoteConfig = RemoteConfig(urls: seq<string>, fetch: seq<string>)

  const ORIGIN := "origin"
  const DEFAULT_FETCH := ["+refs/heads/*:refs/remotes/origin/*"]

  class Repository {
    var remotes: map<string, RemoteConfig>
    var tags: map<string, string>
    var pushed: seq<seq<string>>  // the ref specs of every push accepted by a remote

    /** A tag that exists is never moved. */
    method CreateTag(tag: string, hash: string, fails: bool) returns (ok: bool)
      modifies this`tags
      ensures ok <==> !fails && tag !in old(tags)
      ensures tags == if ok then old(tags)[tag := hash] else old(tags)
    {
      ok := !fails && tag !in tags;
      if ok {
        tags := tags[tag := hash];
      }
    }

    method DeleteRemote(name: string, fails: bool) returns (ok: bool)
      modifies this`remotes
      ensures ok <==> !fails && name in old(remotes)
      ensures remotes == if ok then old(remotes) - {name} else old(remotes)
    {
      ok := !fails && name in remotes;
      if ok {
        remotes := remotes - {name};
      }
    }

    method CreateRemote(name: string, config: RemoteConfig, fails: bool) returns (ok: bool)
      modifies this`remotes
      ensures ok <==> !fails && name !in old(remotes)
      ensures remotes == if ok then old(remotes)[name := config] else old(remotes)
    {
      ok := !fails && name !in remotes;
      if ok {
        remotes := remotes[name := config];
      }
    }

    method Push(refSpecs: seq<string>, fails: bool) returns (ok: bool)
      modifies this`pushed
      ensures ok == !fails
      ensures pushed == if ok then old(pushed) + [refSpecs] else old(pushed)
    {
      ok := !fails;
      if ok {
        pushed := pushed + [refSpecs];
      }
    }
  }

  // ---------------------------------------------------------------- pushChanges

  datatype Config = Config(tagPrefix: string, excludeFiles: seq<string>, username: string, password: string)

  /** Which operation fails, if it is reached. */
  datatype Faults = Faults(
    commit: CommitFaults,
    createTag: bool,
    lookupOrigin: bool,
    lookupUrls: bool,
    swapDelete: bool,
    swapCreate: bool,
    sshAuth: bool,
    push: bool,
    restoreDelete: bool,
    restoreCreate: bool)

  datatype Exit =
    | NotCommitted
    | TagRefused
    | OriginMissing
    | NoUrl
    | SwapDeleteFailed
    | SwapCreateFailed
    | SshAuthFailed
    | PushRefused
    | RestoreDeleteFailed
    | RestoreCreateFailed
    | Pushed

  function RefSpec(tag: string): string {
    "refs/tags/" + tag + ":refs/tags/" + tag
  }

  /** The reference a spec sends a local reference to, if it selects it: the spec has one colon, and a star stands
      for any text, which is carried over. */
  function Destination(spec: string, ref: string): Option<string> {
    var colon := FirstIndex(spec, ':');
    if colon == |spec| then None
    else
      var source, target := spec[..colon], spec[colon + 1..];
      var star := FirstIndex(source, '*');
      if star == |source| then if ref == source then Some(target) else None
      else
        var before, after := source[..star], source[star + 1..];
        if |before| + |after| <= |ref| && before <= ref && ref[|ref| - |after|..] == after
        then Some(Filled(target, ref[star..|ref| - |after|]))
        else None
  }

  /** The text with its star, if it has one, replaced. */
  function Filled(target: string, text: string): string {
    var star := FirstIndex(target, '*');
    if star == |target| then target else target[..star] + text + target[star + 1..]
  }

  /** The specs push this tag under its own name, and no other local reference. */
  ghost predicate PushesOnly(specs: seq<string>, tag: string) {
    |specs| == 1
    && forall ref :: Destination(specs[0], ref) == if ref == "refs/tags/" + tag then Some("refs/tags/" + tag) else None
  }

  lemma FreeBehind(a: string, b: string, c: char)
    requires Free(a, c) && Free(b, c)
    ensures Free(a + b, c)
  {
  }

  lemma SpecReads(source: string, target: string, ref: string)
    requires Free(source, ':') && Free(source, '*')
    ensures Destination(source + ":" + target, ref) == if ref == source then Some(target) else None
  {
    var spec := source + ":" + target;
    FirstIndexOf(source, ':', target);
    assert spec == source + [':'] + target;
    assert spec[..|source|] == source && spec[|source| + 1..] == target;
    FirstIndexOf(source, '*', "");
  }

  /** For a tag without stars and colons, which git does not allow in tags, the spec of a tag selects this tag
      and leaves it under its name. */
  lemma RefSpecSelects(tag: string)
    requires Free(tag, ':') && Free(tag, '*')
    ensures PushesOnly([RefSpec(tag)], tag)
  {
    var name := "refs/tags/" + tag;
    assert Free("refs/tags/", ':') && Free("refs/tags/", '*');
    FreeBehind("refs/tags/", tag, ':');
    FreeBehind("refs/tags/", tag, '*');
    assert RefSpec(tag) == name + ":" + name;
    forall ref ensures Destination(RefSpec(tag), ref) == if ref == name then Some(name) else None {
      SpecReads(name, name, ref);
    }
    hide Destination;
  }

  predicate HasCredentials(config: Config) {
    config.username != "" && config.password != ""
  }

  /** The origin is switched to ssh while pushing: it is an http(s) remote, and credentials are missing. */
  predicate Switches(remotes: map<string, RemoteConfig>, config: Config) {
    ORIGIN in remotes && remotes[ORIGIN].urls != [] && "http" <= remotes[ORIGIN].urls[0] && !HasCredentials(config)
  }

  predicate NeedsSsh(remotes: map<string, RemoteConfig>, config: Config) {
    ORIGIN in remotes && remotes[ORIGIN].urls != [] && ("http" <= remotes[ORIGIN].urls[0] ==> !HasCredentials(config))
  }

  predicate Commits(config: Config, f: Faults) {
    f.commit.commit.Committed? && (config.excludeFiles != [] ==> !f.commit.statusFails)
  }

  function SshRemote(config: RemoteConfig): RemoteConfig
    requires config.urls != []
  {
    RemoteConfig([ConvertHTTPToSSHURL(config.urls[0])], DEFAULT_FETCH)
  }

  /** The remotes between swap and restoration. */
  function WhilePushing(remotes: map<string, RemoteConfig>, config: Config): map<string, RemoteConfig> {
    if Switches(remotes, config) then remotes[ORIGIN := SshRemote(remotes[ORIGIN])] else remotes
  }

  /** What an exit leaves of the remotes: untouched, switched to ssh, or without origin. */
  function RemotesAt(exit: Exit, remotes: map<string, RemoteConfig>, config: Config): map<string, RemoteConfig> {
    match exit
    case SwapCreateFailed => remotes - {ORIGIN}
    case RestoreCreateFailed => remotes - {ORIGIN}
    case SshAuthFailed => WhilePushing(remotes, config)
    case PushRefused => WhilePushing(remotes, config)
    case RestoreDeleteFailed => WhilePushing(remotes, config)
    case _ => remotes
  }

  /** Whether the operation behind an exit fails, if it is reached; `taken` tells that the tag exists. */
  predicate Fails(e: Exit, remotes: map<string, RemoteConfig>, taken: bool, config: Config, f: Faults) {
    match e
    case NotCommitted => !Commits(config, f)
    case TagRefused => f.createTag || taken
    case OriginMissing => f.lookupOrigin || ORIGIN !in remotes
    case NoUrl => f.lookupUrls || (ORIGIN in remotes && remotes[ORIGIN].urls == [])
    case SwapDeleteFailed => Switches(remotes, config) && f.swapDelete
    case SwapCreateFailed => Switches(remotes, config) && f.swapCreate
    case SshAuthFailed => NeedsSsh(remotes, config) && f.sshAuth
    case PushRefused => f.push
    case RestoreDeleteFailed => f.restoreDelete
    case RestoreCreateFailed => f.restoreCreate
    case Pushed => true
  }

  /** The place of the operation behind an exit in the order in which they are reached. */
  function Order(e: Exit): nat {
    match e
    case NotCommitted => 0
    case TagRefused => 1
    case OriginMissing => 2
    case NoUrl => 3
    case SwapDeleteFailed => 4
    case SwapCreateFailed => 5
    case SshAuthFailed => 6
    case PushRefused => 7
    case RestoreDeleteFailed => 8
    case RestoreCreateFailed => 9
    case Pushed => 10
  }

  /** The exit from switching the origin and authenticating, Pushed if all goes well. */
  function PrepareExit(remotes: map<string, RemoteConfig>, config: Config, f: Faults): Exit {
    if Fails(SwapDeleteFailed, remotes, false, config, f) then SwapDeleteFailed
    else if Fails(SwapCreateFailed, remotes, false, config, f) then SwapCreateFailed
    else if Fails(SshAuthFailed, remotes, false, config, f) then SshAuthFailed
    else Pushed
  }

  /** The exit from everything after the tag. */
  function PushExit(remotes: map<string, RemoteConfig>, config: Config, f: Faults): Exit {
    if Fails(OriginMissing, remotes, false, config, f) then OriginMissing
    else if Fails(NoUrl, remotes, false, config, f) then NoUrl
    else if PrepareExit(remotes, config, f) != Pushed then PrepareExit(remotes, config, f)
    else if f.push then PushRefused
    else if f.restoreDelete then RestoreDeleteFailed
    else if f.restoreCreate then RestoreCreateFailed
    else Pushed
  }

  function ExitOf(remotes: map<string, RemoteConfig>, taken: bool, config: Config, f: Faults): Exit {
    if !Commits(config, f) then NotCommitted
    else if f.createTag || taken then TagRefused
    else PushExit(remotes, config, f)
  }

  /** No operation before that of the exit fails. */
  ghost predicate Reached(e: Exit, remotes: map<string, RemoteConfig>, taken: bool, config: Config, f: Faults) {
    forall d: Exit :: Order(d) < Order(e) ==> !Fails(d, remotes, taken, config, f)
  }

  /** The exit is decided by the first operation that fails. */
  lemma ExitIsFirstFailing(e: Exit, remotes: map<string, RemoteConfig>, taken: bool, config: Config, f: Faults)
    ensures ExitOf(remotes, taken, config, f) == e
       <==> Fails(e, remotes, taken, config, f) && Reached(e, remotes, taken, config, f)
  {
    hide Switches, NeedsSsh, Commits;
    var exit := ExitOf(remotes, taken, config, f);
    assert Fails(exit, remotes, taken, config, f) && Reached(exit, remotes, taken, config, f);
    hide Fails, ExitOf;
    if e != exit {
      OrderInjective(e, exit);
    }
  }

  lemma OrderInjective(d: Exit, e: Exit)
    requires d != e
    ensures Order(d) < Order(e) || Order(e) < Order(d)
  {
  }

  predicate TagCreated(exit: Exit) {
    !exit.NotCommitted? && !exit.TagRefused?
  }

  predicate PushAccepted(exit: Exit) {
    exit.Pushed? || exit.RestoreDeleteFailed? || exit.RestoreCreateFailed?
  }

  /** The part that may switch the origin to ssh and gets hold of the means to authenticate. */
  method PreparePush(repo: Repository, config: Config, f: Faults) returns (exit: Exit)
    requires ORIGIN in repo.remotes && repo.remotes[ORIGIN].urls != []
    modifies repo`remotes
    ensures exit == PrepareExit(old(repo.remotes), config, f)
    ensures repo.remotes == if exit == Pushed then WhilePushing(old(repo.remotes), config)
                            else RemotesAt(exit, old(repo.remotes), config)
  {
    hide ConvertHTTPToSSHURL;
    var urls := repo.remotes[ORIGIN].urls;
    if "http" <= urls[0] {
      if !HasCredentials(config) {
        var ok := repo.DeleteRemote(ORIGIN, f.swapDelete);
        if !ok {
          return SwapDeleteFailed;
        }
        ok := repo.CreateRemote(ORIGIN, RemoteConfig([ConvertHTTPToSSHURL(urls[0])], DEFAULT_FETCH), f.swapCreate);
        if !ok {
          return SwapCreateFailed;
        }
        if f.sshAuth {
          return SshAuthFailed;
        }
      }
    } else if f.sshAuth {
      return SshAuthFailed;
    }
    exit := Pushed;
  }

  lemma PrepareExits(remotes: map<string, RemoteConfig>, config: Config, f: Faults)
    ensures PrepareExit(remotes, config, f) in {SwapDeleteFailed, SwapCreateFailed, SshAuthFailed, Pushed}
  {
  }

  /** Pushes the tag and puts the origin back as it was. */
  method PushTag(repo: Repository, config: Config, tag: string, f: Faults) returns (exit: Exit)
    modifies repo`remotes, repo`pushed
    ensures TagCreated(exit)
    ensures repo.remotes == RemotesAt(exit, old(repo.remotes), config)
    ensures repo.pushed == if PushAccepted(exit) then old(repo.pushed) + [[RefSpec(tag)]] else old(repo.pushed)
    ensures exit == PushExit(old(repo.remotes), config, f)
    ensures PushAccepted(exit) && Free(tag, ':') && Free(tag, '*') ==> PushesOnly(repo.pushed[|old(repo.pushed)|], tag)
  {
    hide ConvertHTTPToSSHURL, RefSpec, PrepareExit, Switches, NeedsSsh, PushesOnly, Free;
    if Free(tag, ':') && Free(tag, '*') { RefSpecSelects(tag); }
    if f.lookupOrigin || ORIGIN !in repo.remotes {
      return OriginMissing;
    }
    var current := repo.remotes[ORIGIN];
    if f.lookupUrls || current.urls == [] {
      return NoUrl;
    }
    PrepareExits(repo.remotes, config, f);
    exit := PreparePush(repo, config, f);
    if exit != Pushed {
      return;
    }
    var ok := repo.Push([RefSpec(tag)], f.push);
    if !ok {
      return PushRefused;
    }
    ok := repo.DeleteRemote(ORIGIN, f.restoreDelete);
    if !ok {
      return RestoreDeleteFailed;
    }
    ok := repo.CreateRemote(ORIGIN, current, f.restoreCreate);
    exit := if ok then Pushed else RestoreCreateFailed;
  }

  /** The state of remotes, tags, pushes and commits at every exit. */
  method PushChanges(repo: Repository, worktree: Worktree, config: Config, newVersion: string, glob: Glob, f: Faults)
    returns (exit: Exit)
    modifies repo, worktree
    ensures exit == ExitOf(old(repo.remotes), config.tagPrefix + newVersion in old(repo.tags), config, f)
    ensures repo.remotes == RemotesAt(exit, old(repo.remotes), config)
    ensures TagCreated(exit) <==> Commits(config, f) && !f.createTag && config.tagPrefix + newVersion !in old(repo.tags)
    ensures repo.tags == if TagCreated(exit) then old(repo.tags)[config.tagPrefix + newVersion := f.commit.commit.hash]
                         else old(repo.tags)
    ensures repo.pushed == if PushAccepted(exit) then old(repo.pushed) + [[RefSpec(config.tagPrefix + newVersion)]]
                           else old(repo.pushed)
    ensures PushAccepted(exit) && Free(config.tagPrefix + newVersion, ':') && Free(config.tagPrefix + newVersion, '*') ==>
      PushesOnly(repo.pushed[|old(repo.pushed)|], config.tagPrefix + newVersion)
    ensures worktree.commits == if exit == NotCommitted then old(worktree.commits)
      else old(worktree.commits) + [CommittedPaths(old(worktree.status), config.excludeFiles, glob, f.commit)]
  {
    hide ConvertHTTPToSSHURL, CommittedPaths, RefSpec, PushExit, WhilePushing, PushesOnly, Free;
    var tag := config.tagPrefix + newVersion;
    var commit := AddAndCommit(worktree, config.excludeFiles, glob, f.commit);
    if !commit.CommitDone? {
      return NotCommitted;
    }
    var ok := repo.CreateTag(tag, commit.hash, f.createTag);
    if !ok {
      return TagRefused;
    }
    exit := PushTag(repo, config, tag, f);
  }

  /** Once the tag was created, whatever happened afterwards, a further run for the same version commits
      but then stops at the tag: it pushes nothing and leaves tags and remotes alone. */
  method PushTwice(repo: Repository, worktree: Worktree, config: Config, newVersion: string, glob: Glob, f: Faults, g: Faults)
    returns (first: Exit, second: Exit)
    modifies repo, worktree
    ensures TagCreated(first) ==> second == NotCommitted || second == TagRefused
    ensures TagCreated(first) ==> repo.remotes == RemotesAt(first, old(repo.remotes), config)
    ensures TagCreated(first) ==> |repo.pushed| <= |old(repo.pushed)| + 1
    ensures TagCreated(first) ==>
      f.commit.commit.Committed? && repo.tags == old(repo.tags)[config.tagPrefix + newVersion := f.commit.commit.hash]
  {
    hide ConvertHTTPToSSHURL, CommittedPaths, RefSpec, PushExit, WhilePushing, PushesOnly, Free;
    first := PushChanges(repo, worktree, config, newVersion, glob, f);
    second := PushChanges(repo, worktree, config, newVersion, glob, g);
  }

  /** The origin has an http or https URL, and user name or password are missing. */
  predicate SwapNeeded(remotes: map<string, RemoteConfig>, config: Config) {
    "origin" in remotes && |remotes["origin"].urls| > 0 && "http" <= remotes["origin"].urls[0]
    && (config.username == "" || config.password == "")
  }

  /** The origin has a first URL for which ssh is needed to push: none that starts with http, or one to be swapped. */
  predicate SshNeeded(remotes: map<string, RemoteConfig>, config: Config) {
    SwapNeeded(remotes, config)
    || ("origin" in remotes && |remotes["origin"].urls| > 0 && !("http" <= remotes["origin"].urls[0]))
  }

  /** The swap is come to: everything before goes well. */
  predicate ReachesSwap(remotes: map<string, RemoteConfig>, taken: bool, config: Config, f: Faults) {
    f.commit.commit.Committed? && (|config.excludeFiles| > 0 ==> !f.commit.statusFails)
    && !f.createTag && !taken && !f.lookupOrigin && !f.lookupUrls
    && "origin" in remotes && |remotes["origin"].urls| > 0
  }

  /** The origin is gone: creating it anew, switched or restored, is the first operation that fails. */
  predicate OriginGone(remotes: map<string, RemoteConfig>, taken: bool, config: Config, f: Faults) {
    ReachesSwap(remotes, taken, config, f)
    && if SwapNeeded(remotes, config) && !f.swapDelete && f.swapCreate then true
       else (SwapNeeded(remotes, config) ==> !f.swapDelete) && !(SshNeeded(remotes, config) && f.sshAuth)
            && !f.push && !f.restoreDelete && f.restoreCreate
  }

  /** The origin is left switched: the switch went through, and authentication, push or the removal of the
      switched origin fails. */
  predicate OriginSwitched(remotes: map<string, RemoteConfig>, taken: bool, config: Config, f: Faults) {
    ReachesSwap(remotes, taken, config, f)
    && SwapNeeded(remotes, config) && !f.swapDelete && !f.swapCreate && (f.sshAuth || f.push || f.restoreDelete)
  }

  /** What the faults leave of the remotes at the end: without the origin, with the origin switched to its
      single converted address and the default fetch spec, or exactly as they were; the other remotes are never
      touched. */
  lemma OriginAtExit(remotes: map<string, RemoteConfig>, taken: bool, config: Config, f: Faults)
    ensures var after := RemotesAt(ExitOf(remotes, taken, config, f), remotes, config);
            after == if OriginGone(remotes, taken, config, f) then remotes - {"origin"}
                     else if OriginSwitched(remotes, taken, config, f)
                     then remotes["origin" := RemoteConfig([ConvertHTTPToSSHURL(remotes["origin"].urls[0])],
                                                           ["+refs/heads/*:refs/remotes/origin/*"])]
                     else remotes
    ensures !(OriginGone(remotes, taken, config, f) && OriginSwitched(remotes, taken, config, f))
    ensures "origin" !in RemotesAt(ExitOf(remotes, taken, config, f), remotes, config)
       <==> "origin" !in remotes || OriginGone(remotes, taken, config, f)
  {
    hide ConvertHTTPToSSHURL;
  }

  /** All goes well exactly if the swap is come to and no operation that applies fails afterwards. */
  lemma PushedMeans(remotes: map<string, RemoteConfig>, taken: bool, config: Config, f: Faults)
    ensures ExitOf(remotes, taken, config, f) == Pushed
       <==> ReachesSwap(remotes, taken, config, f)
            && (SwapNeeded(remotes, config) ==> !f.swapDelete && !f.swapCreate) && (SshNeeded(remotes, config) ==> !f.sshAuth)
            && !f.push && !f.restoreDelete && !f.restoreCreate
  {
  }
}
