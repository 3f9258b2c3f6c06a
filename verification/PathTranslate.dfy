/**
 Translation of remote paths that a sender's shell has mangled, and the filter in front of it. The
 rules are expressions over strings; the sender's name, the receiver's home and its system are
 parameters. Paths are texts of characters: every byte the rules look at is ASCII.
*/
module PathTranslate {
  import opened Common

  datatype Os = Linux | Windows | Unknown

  datatype Translated = Translated(remote: string, rewritten: bool)

  // ---- Strings ----------------------------------------------------------------------------

  predicate IsEol(c: char) { c == '\r' || c == '\n' }

  predicate IsSlash(c: char) { c == '/' || c == '\\' }

  predicate IsAlpha(c: char) { 'a' <= c <= 'z' || 'A' <= c <= 'Z' }

  function Lower(c: char): char { if 'A' <= c <= 'Z' then c - 'A' + 'a' else c }

  function LowerAll(s: string): (r: string)
    ensures |r| == |s|
  {
    seq(|s|, i requires 0 <= i < |s| => Lower(s[i]))
  }

  predicate SameIgnoringCase(a: string, b: string) { LowerAll(a) == LowerAll(b) }

  function TrimEol(s: string): (r: string)
    ensures r <= s && Clean(r)
  {
    if s != "" && IsEol(s[|s| - 1]) then TrimEol(s[..|s| - 1]) else s
  }

  predicate Clean(s: string) { s != "" ==> !IsEol(s[|s| - 1]) }

  function TrimSlashesRight(s: string): (r: string)
    ensures r <= s && (r != "" ==> !IsSlash(r[|r| - 1]))
  {
    if s != "" && IsSlash(s[|s| - 1]) then TrimSlashesRight(s[..|s| - 1]) else s
  }

  predicate IsSuffix(r: string, s: string) { |r| <= |s| && s[|s| - |r|..] == r }

  function TrimSlashesLeft(s: string): (r: string)
    ensures IsSuffix(r, s)
  {
    if s != "" && IsSlash(s[0]) then TrimSlashesLeft(s[1..]) else s
  }

  function Replace(s: string, from: char, to: char): (r: string)
    ensures |r| == |s| && forall i :: 0 <= i < |s| ==> r[i] == if s[i] == from then to else s[i]
  {
    seq(|s|, i requires 0 <= i < |s| => if s[i] == from then to else s[i])
  }

  predicate StartsWith(s: string, p: string) { |p| <= |s| && s[..|p|] == p }

  datatype Halves = Halves(left: string, right: string)

  /** Splits at the first separator; all goes left when there is none. */
  function SplitFirst(s: string, backslash: bool): (h: Halves)
    ensures IsSuffix(h.right, s)
  {
    if s == "" then Halves("", "")
    else if s[0] == '/' || (backslash && s[0] == '\\') then Halves("", s[1..])
    else
      var h := SplitFirst(s[1..], backslash);
      Halves([s[0]] + h.left, h.right)
  }

  // ---- The rules --------------------------------------------------------------------------

  predicate UserOk(user: string, sender: Option<string>) { sender.None? || SameIgnoringCase(user, sender.value) }

  /** `/<drive>/Users/<sender>/...` */
  function StripGitBash(path: string, sender: Option<string>): (r: Option<string>)
    ensures r.Some? ==> IsSuffix(r.value, path)
  {
    if |path| < 4 || path[0] != '/' || !IsAlpha(path[1]) || path[2] != '/' then None
    else if !StartsWith(path[3..], "Users/") then None
    else
      var h := SplitFirst(path[9..], false);
      if UserOk(h.left, sender) then Some(h.right) else None
  }

  predicate HasDrive(path: string) { |path| >= 3 && IsAlpha(path[0]) && path[1] == ':' && IsSlash(path[2]) }

  /** `<drive>:[/\]Users[/\]<sender>[/\]...` */
  function StripWindows(path: string, sender: Option<string>): (r: Option<string>)
    ensures r.Some? ==> IsSuffix(r.value, path)
  {
    if |path| < 4 || !HasDrive(path) then None
    else if !StartsWith(path[3..], "Users/") && !StartsWith(path[3..], "Users\\") then None
    else
      var h := SplitFirst(path[9..], true);
      if UserOk(h.left, sender) then Some(h.right) else None
  }

  /** `<drive>:[/\]Temp[/\]...`, in any case. */
  function StripTemp(path: string): (r: Option<string>)
    ensures r.Some? ==> IsSuffix(r.value, path)
  {
    if !HasDrive(path) then None
    else
      var after := path[3..];
      if StartsWith(LowerAll(after), "temp/") || StartsWith(LowerAll(after), "temp\\") then Some(after[5..])
      else if LowerAll(after) == "temp" then Some("")
      else None
  }

  function JoinHome(home: string, rest: string): string {
    var base, suffix := TrimSlashesRight(home), TrimSlashesLeft(rest);
    if suffix == "" then base
    else if '\\' in base && '/' !in base then base + "\\" + Replace(suffix, '/', '\\')
    else base + "/" + Replace(suffix, '\\', '/')
  }

  function TempPath(rest: string): string {
    if rest == "" then "/tmp" else "/tmp/" + Replace(rest, '\\', '/')
  }

  /** `translate_remote_path`; the sender's user name is a parameter. */
  function Translate(input: string, home: string, os: Os, sender: Option<string>): Translated {
    var t := TrimEol(input);
    if StartsWith(t, "~/") then Translated(JoinHome(home, t[2..]), true)
    else if t == "~" then Translated(home, true)
    else if os == Windows then Translated(t, false)
    else if StripGitBash(t, sender).Some? then Translated(JoinHome(home, StripGitBash(t, sender).value), true)
    else if StripWindows(t, sender).Some? then Translated(JoinHome(home, StripWindows(t, sender).value), true)
    else if StripTemp(t).Some? then Translated(TempPath(StripTemp(t).value), true)
    else Translated(t, false)
  }

  /** `classify_os`. */
  function ClassifyOs(home: string): Os {
    if |home| >= 2 && IsAlpha(home[0]) && home[1] == ':' then Windows
    else if StartsWith(home, "/") then Linux
    else if '\\' in home then Windows
    else Unknown
  }

  /** `needs_path_probe`. */
  predicate NeedsProbe(input: string) {
    var t := TrimEol(input);
    || StartsWith(t, "~/") || t == "~"
    || (|t| >= 4 && t[0] == '/' && IsAlpha(t[1]) && t[2] == '/' && StartsWith(t[3..], "Users/"))
    || (|t| >= 4 && HasDrive(t) && (StartsWith(t[3..], "Users/") || StartsWith(t[3..], "Users\\")))
  }

  /** What a push or pull sends: the path is translated only when the filter accepts it. */
  function Sent(input: string, home: string, os: Os, sender: Option<string>): string {
    if NeedsProbe(input) then Translate(input, home, os, sender).remote else input
  }

  // ---- The filter -------------------------------------------------------------------------

  /** The filter lets through every path that rules 1 to 3 rewrite: the only rewrites it misses
      are those of rule 4, and it misses all of them. */
  lemma FilterMissesRule4(input: string, home: string, os: Os, sender: Option<string>)
    ensures Translate(input, home, os, sender).rewritten && !NeedsProbe(input) <==>
      os != Windows && StripTemp(TrimEol(input)).Some?
  {
    var t := TrimEol(input);
    if StripTemp(t).Some? {
      TempIsNotUsers(t);
    }
  }

  lemma TempIsNotUsers(t: string)
    requires StripTemp(t).Some?
    ensures !StartsWith(t[3..], "Users/") && !StartsWith(t[3..], "Users\\") && t[0] != '~' && t[0] != '/'
  {
    var after := t[3..];
    var low := LowerAll(after);
    FirstChar(low, "temp/");
    FirstChar(low, "temp\\");
    FirstChar(after, "Users/");
    FirstChar(after, "Users\\");
  }

  lemma FirstChar(s: string, p: string)
    requires p != ""
    ensures StartsWith(s, p) ==> s[0] == p[0]
  {
    if StartsWith(s, p) {
      assert s[..|p|][0] == s[0];
    }
  }

  /** So a mangled `/tmp` path is sent as it is, to any receiver. */
  lemma TempPathsPassThrough(input: string, home: string, os: Os, sender: Option<string>)
    requires StripTemp(TrimEol(input)).Some?
    ensures Sent(input, home, os, sender) == input
  {
    TempIsNotProbed(input);
  }

  lemma TempIsNotProbed(input: string)
    requires StripTemp(TrimEol(input)).Some?
    ensures !NeedsProbe(input)
  {
    TempIsNotUsers(TrimEol(input));
    FirstChar(TrimEol(input), "~/");
  }

  // ---- Where rewritten paths lie ----------------------------------------------------------

  /** A home as the probe of a Linux receiver yields it. */
  predicate AbsoluteHome(home: string) {
    StartsWith(home, "/") && '\\' !in home && forall i :: 0 <= i < |home| ==> !IsEol(home[i])
  }

  lemma AbsoluteHomeIsLinux(home: string)
    requires AbsoluteHome(home)
    ensures ClassifyOs(home) == Linux
  {
    assert home[..1][0] == home[0];
  }

  function Base(home: string): string { TrimSlashesRight(home) }

  /** `v` is `base` or continues it with a slash. */
  predicate Under(base: string, v: string) { base <= v && (|base| < |v| ==> v[|base|] == '/') }

  /** What joining appends: not empty, no leading slash, no backslash, no line end. */
  predicate SuffixOk(s: string) { s != "" && s[0] != '/' && '\\' !in s && Clean(s) }

  lemma SuffixIsClean(r: string, s: string)
    requires IsSuffix(r, s) && Clean(s)
    ensures Clean(r)
  {
    if r != "" {
      assert r[|r| - 1] == s[|s| - 1];
    }
  }

  lemma {:induction false} TrimmedStart(s: string)
    ensures TrimSlashesLeft(s) != "" ==> !IsSlash(TrimSlashesLeft(s)[0])
  {
    if s != "" && IsSlash(s[0]) {
      TrimmedStart(s[1..]);
    }
  }

  lemma Replaced(s: string)
    requires Clean(s) && s != "" && !IsSlash(s[0])
    ensures SuffixOk(Replace(s, '\\', '/'))
  {
  }

  /** Joining yields the base, or the base, a slash and a suffix. */
  lemma JoinShape(home: string, rest: string)
    requires AbsoluteHome(home) && Clean(rest)
    ensures var p, base, suffix := JoinHome(home, rest), Base(home), TrimSlashesLeft(rest);
      if suffix == "" then p == base
      else SuffixOk(Replace(suffix, '\\', '/')) && p == base + "/" + Replace(suffix, '\\', '/')
  {
    var base, suffix := Base(home), TrimSlashesLeft(rest);
    assert '\\' !in base;
    if suffix != "" {
      SuffixIsClean(suffix, rest);
      TrimmedStart(rest);
      Replaced(suffix);
    }
  }

  predicate Joined(p: string, base: string) {
    p == base || (|p| > |base| + 1 && p == base + "/" + p[|base| + 1..] && SuffixOk(p[|base| + 1..]))
  }

  lemma JoinIsJoined(home: string, rest: string)
    requires AbsoluteHome(home) && Clean(rest)
    ensures Joined(JoinHome(home, rest), Base(home))
  {
    JoinShape(home, rest);
    var p, base, suffix := JoinHome(home, rest), Base(home), TrimSlashesLeft(rest);
    if suffix != "" {
      assert p[|base| + 1..] == Replace(suffix, '\\', '/');
    }
  }

  /** Joining a suffix that needs no repair appends it as it is. */
  lemma JoinPlain(home: string, s: string)
    requires AbsoluteHome(home) && SuffixOk(s)
    ensures JoinHome(home, s) == Base(home) + "/" + s
  {
    NothingToReplace(s);
    BaseHasNone(home);
  }

  lemma NothingToReplace(s: string)
    requires '\\' !in s
    ensures Replace(s, '\\', '/') == s
  {
  }

  lemma BaseHasNone(home: string)
    requires '\\' !in home
    ensures '\\' !in Base(home)
  {
  }

  lemma TempShape(rest: string)
    requires Clean(rest)
    ensures var p := TempPath(rest); StartsWith(p, "/tmp") && '\\' !in p && Clean(p)
  {
    if rest != "" {
      var p, r := TempPath(rest), Replace(rest, '\\', '/');
      assert p == "/tmp/" + r && p[|p| - 1] == r[|r| - 1];
    }
  }

  /** What a rewrite yields: the home itself, a joined path, or a path under /tmp. */
  predicate Placed(p: string, home: string) {
    p == home || Joined(p, Base(home)) || (StartsWith(p, "/tmp") && '\\' !in p && Clean(p))
  }

  /** On a Linux receiver every rewritten path lies under the home or /tmp. */
  lemma RewrittenIsPlaced(input: string, home: string, sender: Option<string>)
    requires AbsoluteHome(home) && Translate(input, home, Linux, sender).rewritten
    ensures Placed(Translate(input, home, Linux, sender).remote, home)
  {
    var t := TrimEol(input);
    if StartsWith(t, "~/") {
      SuffixIsClean(t[2..], t);
      JoinIsJoined(home, t[2..]);
    } else if t != "~" {
      if StripGitBash(t, sender).Some? {
        SuffixIsClean(StripGitBash(t, sender).value, t);
        JoinIsJoined(home, StripGitBash(t, sender).value);
      } else if StripWindows(t, sender).Some? {
        SuffixIsClean(StripWindows(t, sender).value, t);
        JoinIsJoined(home, StripWindows(t, sender).value);
      } else {
        SuffixIsClean(StripTemp(t).value, t);
        TempShape(StripTemp(t).value);
      }
    }
  }

  /** Such a path starts with the home, up to its trailing slashes, or with /tmp, and has no
      backslash. */
  lemma PlacedShape(p: string, home: string)
    requires AbsoluteHome(home) && Placed(p, home)
    ensures '\\' !in p && (Base(home) <= p || StartsWith(p, "/tmp"))
  {
    if p != home && Joined(p, Base(home)) && p != Base(home) {
      assert '\\' !in Base(home);
      assert p == Base(home) + "/" + p[|Base(home)| + 1..];
    }
  }

  // ---- When translating twice is translating once -----------------------------------------

  /** The home is the root, or a single letter under it: what follows may look like a drive. */
  predicate ShortRoot(base: string) { base == "" || (|base| == 2 && IsAlpha(base[1])) }

  /** The home starts with `/<letter>/Users` itself. */
  predicate Mounted(base: string) {
    |base| >= 4 && IsAlpha(base[1]) && base[2] == '/' && (base[3..] == "Users" || StartsWith(base[3..], "Users/"))
  }

  /** The home is exactly `/<letter>/Users/<user>`, written without a trailing slash. */
  predicate AtUser(home: string) {
    Mounted(home) && StartsWith(home[3..], "Users/") && '/' !in home[9..] && home == Base(home)
  }

  lemma BaseOf(home: string)
    requires AbsoluteHome(home)
    ensures Under(Base(home), home) && (Base(home) != "" ==> |Base(home)| >= 2 && Base(home)[0] == '/')
    ensures Base(home) != "" ==> Base(home)[|Base(home)| - 1] != '/'
  {
    assert home[..1][0] == home[0];
    TrimmedTail(home, |Base(home)|);
  }

  lemma {:induction false} TrimmedTail(home: string, k: nat)
    requires k == |TrimSlashesRight(home)|
    ensures k < |home| ==> IsSlash(home[k])
    decreases |home|
  {
    if home != "" && IsSlash(home[|home| - 1]) {
      TrimmedTail(home[..|home| - 1], k);
    }
  }

  lemma UsersLine(base: string, v: string)
    requires Under(base, v) && |base| >= 3 && |v| >= 4 && StartsWith(v[3..], "Users/")
    ensures |base| >= 4 ==> base[3..] == "Users" || StartsWith(base[3..], "Users/")
    ensures |base| == 3 ==> base[2] != '/' || v[3] == 'U'
  {
    var w := v[3..];
    assert w[..6] == "Users/";
    if |base| >= 9 {
      assert base[3..][..6] == w[..6];
    } else if |base| >= 4 {
      assert base[3..] == w[..|base| - 3];
      assert v[|base|] == w[|base| - 3] == w[..6][|base| - 3];
    }
  }

  /** Outside those homes rule 2 does not see a path under the home. */
  lemma NotMangled(home: string, v: string, sender: Option<string>)
    requires AbsoluteHome(home) && Under(Base(home), v)
    requires !ShortRoot(Base(home)) && !Mounted(Base(home))
    ensures StripGitBash(v, sender).None?
  {
    var base := Base(home);
    BaseOf(home);
    if |base| >= 3 && |v| >= 4 && StartsWith(v[3..], "Users/") {
      UsersLine(base, v);
    }
  }

  lemma NoRule(v: string, home: string, sender: Option<string>)
    requires v != "" && v[0] == '/' && Clean(v) && StripGitBash(v, sender).None?
    ensures Translate(v, home, Linux, sender) == Translated(v, false)
  {
    assert TrimEol(v) == v;
    FirstChar(v, "~/");
  }

  lemma TempIsFixed(v: string, home: string, sender: Option<string>)
    requires StartsWith(v, "/tmp") && Clean(v)
    ensures Translate(v, home, Linux, sender) == Translated(v, false)
  {
    assert v[..4][0] == v[0] && v[..4][2] == v[2];
    NoRule(v, home, sender);
  }

  lemma JoinedIsUnder(p: string, base: string)
    requires Joined(p, base) && (base != "" ==> Clean(base))
    ensures Under(base, p) && Clean(p)
  {
    if p != base {
      var s := p[|base| + 1..];
      assert p[|base|] == '/' && p[|p| - 1] == s[|s| - 1];
    }
  }

  lemma BaseIsClean(home: string)
    requires AbsoluteHome(home)
    ensures Clean(home) && Clean(Base(home))
  {
    assert Base(home) == home[..|Base(home)|];
  }

  predicate Quiet(home: string) { !ShortRoot(Base(home)) && !Mounted(Base(home)) }

  lemma PlacedIsFixed(p: string, home: string, sender: Option<string>)
    requires AbsoluteHome(home) && Placed(p, home) && Quiet(home)
    ensures Translate(p, home, Linux, sender) == Translated(p, false)
  {
    BaseOf(home);
    BaseIsClean(home);
    if StartsWith(p, "/tmp") && Clean(p) {
      TempIsFixed(p, home, sender);
    } else {
      if p != home {
        JoinedIsUnder(p, Base(home));
      }
      NotMangled(home, p, sender);
      NoRule(p, home, sender);
    }
  }

  lemma TrimTwice(s: string)
    ensures TrimEol(TrimEol(s)) == TrimEol(s)
  {
  }

  lemma UntouchedIsFixed(input: string, home: string, sender: Option<string>)
    requires !Translate(input, home, Linux, sender).rewritten
    ensures var once := Translate(input, home, Linux, sender).remote;
      Translate(once, home, Linux, sender) == Translated(once, false)
  {
    TrimTwice(input);
    SameTrimmed(input, TrimEol(input), home, sender);
  }

  /** Only the trimmed path matters. */
  lemma SameTrimmed(a: string, b: string, home: string, sender: Option<string>)
    requires TrimEol(a) == TrimEol(b)
    ensures Translate(a, home, Linux, sender) == Translate(b, home, Linux, sender)
  {
  }

  lemma {:induction false} SplitWhole(u: string)
    requires '/' !in u
    ensures SplitFirst(u, false) == Halves(u, "")
  {
    if u != "" {
      assert u[0] != '/';
      SplitWhole(u[1..]);
      assert u == [u[0]] + u[1..];
    }
  }

  lemma {:induction false} SplitAtSlash(w: string, k: nat)
    requires k < |w| && w[k] == '/' && forall i :: 0 <= i < k ==> w[i] != '/'
    ensures SplitFirst(w, false) == Halves(w[..k], w[k + 1..])
    decreases k
  {
    if k > 0 {
      SplitAtSlash(w[1..], k - 1);
      assert w[1..][..k - 1] == w[1..k] && w[1..][k..] == w[k + 1..];
      assert [w[0]] + w[1..k] == w[..k];
    }
  }

  /** What rule 2 makes of a path whose parts are known. */
  lemma Strips(v: string, u: string, r: string, sender: Option<string>)
    requires |v| >= 9 && v[0] == '/' && IsAlpha(v[1]) && v[2] == '/' && v[3..9] == "Users/" && '/' !in u
    requires (v[9..] == u && r == "") || v[9..] == u + "/" + r
    ensures StripGitBash(v, sender) == if UserOk(u, sender) then Some(r) else None
  {
    assert v[3..][..6] == v[3..9];
    if v[9..] == u && r == "" {
      SplitWhole(u);
    } else {
      var w := v[9..];
      assert w[|u|] == '/' && w[..|u|] == u && w[|u| + 1..] == r;
      SplitAtSlash(w, |u|);
    }
  }

  /** At `/<letter>/Users/<user>` rule 2 takes a path apart and joins it again. */
  lemma UserPathStrips(home: string, p: string, s: string, sender: Option<string>)
    requires AtUser(home) && AbsoluteHome(home)
    requires (p == home && s == "") || p == home + "/" + s
    ensures StripGitBash(p, sender) == if UserOk(home[9..], sender) then Some(s) else None
  {
    assert home[..1][0] == '/';
    assert home[3..][..6] == "Users/" && p[3..9] == home[3..][..6];
    assert p[9..] == if p == home then home[9..] else home[9..] + "/" + s;
    Strips(p, home[9..], s, sender);
  }

  lemma UserPathIsStable(p: string, home: string, sender: Option<string>)
    requires AbsoluteHome(home) && Placed(p, home) && AtUser(home)
    ensures Translate(p, home, Linux, sender).remote == p
  {
    BaseIsClean(home);
    if StartsWith(p, "/tmp") && Clean(p) {
      TempIsFixed(p, home, sender);
    } else {
      var s := if p == home then "" else p[|home| + 1..];
      JoinedIsUnder(p, home);
      UserPathStrips(home, p, s, sender);
      UserPathTranslates(p, home, s, sender);
    }
  }

  lemma UserPathTranslates(p: string, home: string, s: string, sender: Option<string>)
    requires AbsoluteHome(home) && home == Base(home) && Clean(p) && StartsWith(p, "/")
    requires (p == home && s == "") || (p == home + "/" + s && SuffixOk(s))
    requires var r := StripGitBash(p, sender); r.None? || r == Some(s)
    ensures Translate(p, home, Linux, sender).remote == p
  {
    assert p[..1][0] == p[0];
    if StripGitBash(p, sender).None? {
      NoRule(p, home, sender);
    } else {
      if s != "" {
        JoinPlain(home, s);
      }
      RuleTwo(p, home, sender);
    }
  }

  lemma RuleTwo(p: string, home: string, sender: Option<string>)
    requires Clean(p) && StripGitBash(p, sender).Some?
    ensures Translate(p, home, Linux, sender) == Translated(JoinHome(home, StripGitBash(p, sender).value), true)
  {
    assert TrimEol(p) == p;
    FirstChar(p, "~/");
  }

  predicate Stable(home: string) { Quiet(home) || AtUser(home) }

  /** A second translation changes no path. */
  predicate StableOn(input: string, home: string, sender: Option<string>) {
    var once := Translate(input, home, Linux, sender).remote;
    Translate(once, home, Linux, sender).remote == once
  }

  /** A second translation does not even report a rewrite. */
  predicate QuietOn(input: string, home: string, sender: Option<string>) {
    var once := Translate(input, home, Linux, sender).remote;
    Translate(once, home, Linux, sender) == Translated(once, false)
  }

  lemma StableHolds(input: string, home: string, sender: Option<string>)
    requires AbsoluteHome(home)
    ensures Quiet(home) ==> QuietOn(input, home, sender)
    ensures Stable(home) ==> StableOn(input, home, sender)
  {
    var t := Translate(input, home, Linux, sender);
    if !t.rewritten {
      UntouchedIsFixed(input, home, sender);
    } else {
      RewrittenIsPlaced(input, home, sender);
      if Quiet(home) {
        PlacedIsFixed(t.remote, home, sender);
      } else if AtUser(home) {
        UserPathIsStable(t.remote, home, sender);
      }
    }
  }

  // ---- The homes that break it ------------------------------------------------------------

  lemma RuleOne(home: string, s: string)
    requires AbsoluteHome(home) && SuffixOk(s)
    ensures Translate("~/" + s, home, Linux, None) == Translated(Base(home) + "/" + s, true)
  {
    var input := "~/" + s;
    assert input[|input| - 1] == s[|s| - 1];
    assert TrimEol(input) == input && input[..2] == "~/" && input[2..] == s;
    JoinPlain(home, s);
  }

  lemma Breaks(home: string, s: string, r: string)
    requires AbsoluteHome(home) && SuffixOk(s)
    requires StripGitBash(Base(home) + "/" + s, None) == Some(r) && JoinHome(home, r) != Base(home) + "/" + s
    ensures !StableOn("~/" + s, home, None)
  {
    var v := Base(home) + "/" + s;
    assert v[|v| - 1] == s[|s| - 1];
    RuleOne(home, s);
    RuleTwo(v, home, None);
  }

  lemma UserBreaks(home: string, v: string, s: string)
    requires AbsoluteHome(home) && SuffixOk(s) && |s| > 1 && v == Base(home) + "/" + s
    requires |v| >= 9 && v[0] == '/' && IsAlpha(v[1]) && v[2] == '/' && v[3..9] == "Users/" && v[9..] == "u" + "/" + "x"
    ensures !StableOn("~/" + s, home, None)
  {
    Strips(v, "u", "x", None);
    JoinPlain(home, "x");
    Breaks(home, s, "x");
  }

  /** The root: `~/c/Users/u/x` becomes `/c/Users/u/x` and then `/x`. */
  lemma RootBreaks(home: string, s: string)
    requires AbsoluteHome(home) && Base(home) == "" && s == "c/Users/u/x"
    ensures !StableOn("~/" + s, home, None)
  {
    var v := "" + "/" + s;
    assert v[3..9] == "Users/" && v[9..] == "u" + "/" + "x";
    UserBreaks(home, v, s);
  }

  /** A letter under the root: `~/Users/u/x` becomes `/c/Users/u/x` and then `/c/x`. */
  lemma LetterBreaks(home: string, base: string, s: string)
    requires AbsoluteHome(home) && Base(home) == base && |base| == 2 && IsAlpha(base[1]) && s == "Users/u/x"
    ensures !StableOn("~/" + s, home, None)
  {
    BaseOf(home);
    var v := base + "/" + s;
    assert v[3..9] == "Users/" && v[9..] == "u" + "/" + "x";
    UserBreaks(home, v, s);
  }

  /** `/c/Users`: `~/u/x` becomes `/c/Users/u/x` and then `/c/Users/x`. */
  lemma UsersBreaks(home: string, base: string, s: string)
    requires AbsoluteHome(home) && Base(home) == base && |base| == 8 && s == "u/x"
    requires IsAlpha(base[1]) && base[2] == '/' && base[3..] == "Users"
    ensures !StableOn("~/" + s, home, None)
  {
    BaseOf(home);
    var v := base + "/" + s;
    assert v[3..9] == base[3..] + "/" && v[9..] == "u" + "/" + "x";
    UserBreaks(home, v, s);
  }

  lemma {:induction false} FirstSlash(w: string) returns (u: string, m: string)
    requires '/' in w
    ensures '/' !in u && w == u + "/" + m
  {
    if w[0] == '/' {
      u, m := "", w[1..];
    } else {
      assert w == [w[0]] + w[1..];
      u, m := FirstSlash(w[1..]);
      u := [w[0]] + u;
    }
  }

  lemma {:induction false} TrimKeeps(r: string, k: nat)
    requires k < |r| && !IsSlash(r[k])
    ensures |TrimSlashesLeft(r)| >= |r| - k
    decreases |r|
  {
    if IsSlash(r[0]) {
      TrimKeeps(r[1..], k - 1);
    }
  }

  lemma LongRest(home: string, m: string)
    requires AbsoluteHome(home) && m != "" && !IsSlash(m[|m| - 1])
    ensures |JoinHome(home, m + "/x")| > |Base(home)| + 2
  {
    var r := m + "/x";
    assert r[|r| - 1] == 'x' && Clean(r);
    TrimKeeps(r, |m| - 1);
    JoinShape(home, r);
  }

  /** The part of a base below the user. */
  lemma BelowUser(base: string) returns (u: string, m: string)
    requires |base| >= 9 && '/' in base[9..] && '\\' !in base && base[|base| - 1] != '/'
    ensures '/' !in u && base[9..] == u + "/" + m && m != "" && !IsSlash(m[|m| - 1])
  {
    u, m := FirstSlash(base[9..]);
    assert base[9..][|base| - 10] == base[|base| - 1];
    assert base[9..][|u|] == '/';
    assert m != "" ==> m[|m| - 1] == base[9..][|base| - 10];
  }

  /** Something below the user: `~/x` becomes `/c/Users/u/m/x` and then `/c/Users/u/m/m/x`. */
  lemma BelowUserBreaks(home: string, base: string)
    requires AbsoluteHome(home) && Base(home) == base && |base| >= 9
    requires IsAlpha(base[1]) && base[2] == '/' && base[3..9] == "Users/" && '/' in base[9..]
    ensures !StableOn("~/" + "x", home, None)
  {
    BaseOf(home);
    BaseHasNone(home);
    var u, m := BelowUser(base);
    var v := base + "/" + "x";
    assert v[3..9] == base[3..9] && v[9..] == u + "/" + (m + "/x");
    Strips(v, u, m + "/x", None);
    LongRest(home, m);
    Breaks(home, "x", m + "/x");
  }

  lemma {:induction false} OnlySlashes(home: string, k: nat)
    requires '\\' !in home && |Base(home)| <= k < |home|
    ensures home[k] == '/'
    decreases |home|
  {
    if home != "" && IsSlash(home[|home| - 1]) && k < |home| - 1 {
      OnlySlashes(home[..|home| - 1], k);
    }
  }

  lemma {:induction false} AllTrimmed(m: string)
    requires forall i :: 0 <= i < |m| ==> m[i] == '/'
    ensures TrimSlashesLeft(m) == ""
  {
    if m != "" {
      AllTrimmed(m[1..]);
    }
  }

  /** `/c/Users/u/` with its trailing slash: `~` becomes the home and then loses the slash. */
  lemma TrailingSlashBreaks(home: string, base: string)
    requires AbsoluteHome(home) && Base(home) == base && |base| >= 9 && home != base
    requires IsAlpha(base[1]) && base[2] == '/' && base[3..9] == "Users/" && '/' !in base[9..]
    ensures !StableOn("~", home, None)
  {
    BaseIsClean(home);
    var m := TrailingSlashStrips(home, base);
    RuleTwo(home, home, None);
    BareTilde(home);
  }

  lemma BareTilde(home: string)
    ensures Translate("~", home, Linux, None) == Translated(home, true)
  {
    assert TrimEol("~") == "~";
  }

  lemma TrailingSlashStrips(home: string, base: string) returns (m: string)
    requires AbsoluteHome(home) && Base(home) == base && |base| >= 9 && home != base
    requires IsAlpha(base[1]) && base[2] == '/' && base[3..9] == "Users/" && '/' !in base[9..]
    ensures StripGitBash(home, None) == Some(m) && JoinHome(home, m) == base
  {
    BaseOf(home);
    m := home[|base| + 1..];
    forall i | 0 <= i < |m| ensures m[i] == '/' {
      OnlySlashes(home, |base| + 1 + i);
    }
    assert home[3..9] == base[3..9];
    assert home[9..] == base[9..] + "/" + m;
    Strips(home, base[9..], m, None);
    AllTrimmed(m);
  }

  lemma UserReports(home: string)
    requires AbsoluteHome(home) && AtUser(home)
    ensures !QuietOn("~", home, None)
  {
    BaseIsClean(home);
    UserPathStrips(home, home, "", None);
    RuleTwo(home, home, None);
    BareTilde(home);
  }

  lemma Unstable(home: string) returns (input: string)
    requires AbsoluteHome(home) && !Stable(home)
    ensures !StableOn(input, home, None)
  {
    var base := Base(home);
    if base == "" {
      input := "~/" + "c/Users/u/x";
      RootBreaks(home, "c/Users/u/x");
    } else if ShortRoot(base) {
      input := "~/" + "Users/u/x";
      LetterBreaks(home, base, "Users/u/x");
    } else if base[3..] == "Users" {
      input := "~/" + "u/x";
      UsersBreaks(home, base, "u/x");
    } else {
      assert base[3..9] == base[3..][..6];
      if '/' in base[9..] {
        input := "~/" + "x";
        BelowUserBreaks(home, base);
      } else {
        input := "~";
        TrailingSlashBreaks(home, base);
      }
    }
  }

  /** For a Linux receiver, a second translation changes no path of any sender exactly when the home
      is not the root, not `/<letter>`, and does not start with `/<letter>/Users`, except that it may
      be `/<letter>/Users/<user>` itself, without a trailing slash. */
  lemma StableIff(home: string)
    requires AbsoluteHome(home)
    ensures (forall input, sender :: StableOn(input, home, sender)) <==> Stable(home)
  {
    if Stable(home) {
      forall input, sender ensures StableOn(input, home, sender) {
        StableHolds(input, home, sender);
      }
    } else {
      var input := Unstable(home);
    }
  }

  /** It does not even report a rewrite exactly when that exception is ruled out too. */
  lemma QuietIff(home: string)
    requires AbsoluteHome(home)
    ensures (forall input, sender :: QuietOn(input, home, sender)) <==> Quiet(home)
  {
    if Quiet(home) {
      forall input, sender ensures QuietOn(input, home, sender) {
        StableHolds(input, home, sender);
      }
    } else if AtUser(home) {
      UserReports(home);
    } else {
      var input := Unstable(home);
      assert !QuietOn(input, home, None);
    }
  }

  /** A home whose first component has more than one character is such a home. */
  lemma LongComponentIsQuiet(home: string)
    requires AbsoluteHome(home) && |home| >= 3 && home[1] != '/' && home[2] != '/'
    ensures Quiet(home)
  {
    LongBase(home, 3);
  }

  lemma {:induction false} LongBase(home: string, k: nat)
    requires 0 < k <= |home| && !IsSlash(home[k - 1])
    ensures |Base(home)| >= k
    decreases |home|
  {
    if IsSlash(home[|home| - 1]) {
      LongBase(home[..|home| - 1], k);
    }
  }

  /** A path the filter misses: `W:/Temp/x` is rule 4's, and is sent as it is. */
  lemma MissedPath(input: string, home: string, sender: Option<string>)
    requires input == "W:/Temp/x"
    ensures Translate(input, home, Linux, sender) == Translated("/tmp/x", true) && !NeedsProbe(input)
    ensures Sent(input, home, Linux, sender) == input
  {
    var after := input[3..];
    assert TrimEol(input) == input;
    assert after == "Temp/x" && LowerAll(after)[..5] == "temp/" && after[5..] == "x";
    assert StripTemp(input) == Some("x");
    TempIsNotUsers(input);
    FirstChar(input, "~/");
    NothingToReplace("x");
    TempPathsPassThrough(input, home, Linux, sender);
  }
}
