/** The paths that translation rewrites, built the way a sender's shell builds them. */
module Mangling {
  // Each form is written as a concatenation, and the rules are proved to take exactly these apart.

  import opened Common
  import opened PathTranslate

  predicate Letter(c: char) { 'a' <= c <= 'z' || 'A' <= c <= 'Z' }

  predicate Slash(c: char) { c == '/' || c == '\\' }

  predicate AllSlashes(s: string) { forall i :: 0 <= i < |s| ==> Slash(s[i]) }

  predicate NoSlash(s: string) { forall i :: 0 <= i < |s| ==> !Slash(s[i]) }

  /** The same letter but for its case. */
  predicate SameLetter(c: char, d: char) {
    c == d || (Letter(c) && Letter(d) && (c as int - d as int == 32 || d as int - c as int == 32))
  }

  predicate SameName(a: string, b: string) { |a| == |b| && forall i :: 0 <= i < |a| ==> SameLetter(a[i], b[i]) }

  predicate Named(user: string, sender: Option<string>) { sender.None? || SameName(user, sender.value) }

  lemma SameNameIff(a: string, b: string)
    ensures SameIgnoringCase(a, b) <==> SameName(a, b)
  {
    if SameIgnoringCase(a, b) {
      assert |LowerAll(a)| == |LowerAll(b)|;
      forall i | 0 <= i < |a| ensures SameLetter(a[i], b[i]) {
        assert LowerAll(a)[i] == Lower(a[i]) && LowerAll(b)[i] == Lower(b[i]);
      }
    }
  }

  // ---- The forms --------------------------------------------------------------------------

  /** `/<drive>/Users/<user>`, and what follows after a slash. */
  ghost predicate GitBashForm(path: string, drive: char, user: string, rest: string) {
    && Letter(drive) && '/' !in user
    && (path == "/" + [drive] + "/Users/" + user + "/" + rest || (path == "/" + [drive] + "/Users/" + user && rest == ""))
  }

  /** `<drive>:/Users/<user>`, and what follows after a slash, each slash forward or backward. */
  ghost predicate WindowsForm(path: string, drive: char, a: char, b: char, c: char, user: string, rest: string) {
    && Letter(drive) && Slash(a) && Slash(b) && Slash(c) && NoSlash(user)
    && (path == [drive, ':', a] + "Users" + [b] + user + [c] + rest
        || (path == [drive, ':', a] + "Users" + [b] + user && rest == ""))
  }

  /** `<drive>:/Temp`, in any case, and what follows after a slash. */
  ghost predicate TempForm(path: string, drive: char, a: char, temp: string, b: char, rest: string) {
    && Letter(drive) && Slash(a) && Slash(b) && SameName(temp, "temp")
    && (path == [drive, ':', a] + temp + [b] + rest || (path == [drive, ':', a] + temp && rest == ""))
  }

  // ---- Taking them apart ------------------------------------------------------------------

  predicate Cuts(c: char, backslash: bool) { c == '/' || (backslash && c == '\\') }

  lemma {:induction false} SplitAt(left: string, c: char, right: string, backslash: bool)
    requires Cuts(c, backslash) && forall i :: 0 <= i < |left| ==> !Cuts(left[i], backslash)
    ensures SplitFirst(left + [c] + right, backslash) == Halves(left, right)
  {
    var s := left + [c] + right;
    if left == [] {
      assert s[1..] == right;
    } else {
      assert s[1..] == left[1..] + [c] + right;
      SplitAt(left[1..], c, right, backslash);
      assert [left[0]] + left[1..] == left;
    }
  }

  lemma {:induction false} SplitNowhere(s: string, backslash: bool)
    requires forall i :: 0 <= i < |s| ==> !Cuts(s[i], backslash)
    ensures SplitFirst(s, backslash) == Halves(s, "")
  {
    if s != "" {
      SplitNowhere(s[1..], backslash);
      assert [s[0]] + s[1..] == s;
    }
  }

  /** `h` is the text before and after the first separator `c`, or the whole text. */
  predicate SplitsAs(s: string, h: Halves, c: char, backslash: bool) {
    && (forall i :: 0 <= i < |h.left| ==> !Cuts(h.left[i], backslash))
    && Cuts(c, backslash)
    && (s == h.left + [c] + h.right || (s == h.left && h.right == ""))
  }

  lemma SplitGrows(d: char, s: string, h: Halves, c: char, backslash: bool)
    requires SplitsAs(s, h, c, backslash) && !Cuts(d, backslash)
    ensures SplitsAs([d] + s, Halves([d] + h.left, h.right), c, backslash)
  {
    assert [d] + (h.left + [c] + h.right) == ([d] + h.left) + [c] + h.right;
  }

  lemma {:induction false} SplitOf(s: string, backslash: bool) returns (c: char)
    ensures SplitsAs(s, SplitFirst(s, backslash), c, backslash)
  {
    if s == "" {
      c := '/';
    } else if Cuts(s[0], backslash) {
      c := s[0];
      assert s == "" + [c] + s[1..];
    } else {
      c := SplitOf(s[1..], backslash);
      SplitGrows(s[0], s[1..], SplitFirst(s[1..], backslash), c, backslash);
      assert s == [s[0]] + s[1..];
    }
  }

  lemma UserOkIff(user: string, sender: Option<string>)
    ensures UserOk(user, sender) <==> Named(user, sender)
  {
    if sender.Some? {
      SameNameIff(user, sender.value);
    }
  }

  lemma Join4(a: string, b: string, c: string, d: string)
    ensures a + (b + c + d) == a + b + c + d
    ensures (a + b + c + d)[|a|..] == b + c + d && (a + b)[|a|..] == b
    ensures (a + b + c + d)[..|a|] == a && (a + b)[..|a|] == a
  {
  }

  function GitBashHead(drive: char): string { "/" + [drive] + "/Users/" }

  lemma GitBashStrips(path: string, drive: char, user: string, rest: string, sender: Option<string>)
    requires GitBashForm(path, drive, user, rest) && Named(user, sender)
    ensures StripGitBash(path, sender) == Some(rest)
  {
    UserOkIff(user, sender);
    Join4(GitBashHead(drive), user, "/", rest);
    GitBashStarts(path, drive);
    if path == GitBashHead(drive) + user + "/" + rest {
      SplitAt(user, '/', rest, false);
    } else {
      SplitNowhere(user, false);
    }
  }

  lemma GitBashStarts(path: string, drive: char)
    requires |path| >= 9
    ensures path[..9] == GitBashHead(drive) <==>
      path[0] == '/' && path[1] == drive && path[2] == '/' && StartsWith(path[3..], "Users/")
  {
    assert path[3..][..6] == path[3..9];
    assert path[..9] == path[..3] + path[3..9];
    assert GitBashHead(drive)[3..] == "Users/" && GitBashHead(drive)[..3] == "/" + [drive] + "/";
  }

  lemma StrippedIsGitBash(path: string, sender: Option<string>) returns (drive: char, user: string)
    requires StripGitBash(path, sender).Some?
    ensures GitBashForm(path, drive, user, StripGitBash(path, sender).value) && Named(user, sender)
  {
    var h := SplitFirst(path[9..], false);
    drive, user := path[1], h.left;
    UserOkIff(user, sender);
    var c := SplitOf(path[9..], false);
    GitBashStarts(path, drive);
    GitBashWhole(path, drive, h);
  }

  lemma GitBashWhole(path: string, drive: char, h: Halves)
    requires |path| >= 9 && path[..9] == GitBashHead(drive) && Letter(drive) && SplitsAs(path[9..], h, '/', false)
    ensures GitBashForm(path, drive, h.left, h.right)
  {
    assert path == path[..9] + path[9..];
    Join4(GitBashHead(drive), h.left, "/", h.right);
  }

  function WindowsHead(drive: char, a: char, b: char): string { [drive, ':', a] + "Users" + [b] }

  lemma WindowsStarts(path: string, drive: char, a: char, b: char)
    requires |path| >= 9
    ensures path[..9] == WindowsHead(drive, a, b) <==>
      path[0] == drive && path[1] == ':' && path[2] == a && path[3..][..6] == "Users" + [b]
  {
    assert path[3..][..6] == path[3..9];
    assert path[..9] == path[..3] + path[3..9];
    assert WindowsHead(drive, a, b)[3..] == "Users" + [b] && WindowsHead(drive, a, b)[..3] == [drive, ':', a];
  }

  lemma UsersStart(path: string, b: char)
    requires Slash(b)
    ensures |path| >= 9 && path[3..][..6] == "Users" + [b] ==>
      StartsWith(path[3..], "Users/") || StartsWith(path[3..], "Users\\")
    ensures |path| >= 3 && (StartsWith(path[3..], "Users/") || StartsWith(path[3..], "Users\\")) ==>
      |path| >= 9 && Slash(path[8]) && path[3..][..6] == "Users" + [path[8]]
  {
    assert "Users" + ['/'] == "Users/" && "Users" + ['\\'] == "Users\\";
    if |path| >= 9 {
      assert path[3..][..6][5] == path[8];
    }
  }

  lemma WindowsStrips(path: string, drive: char, a: char, b: char, c: char, user: string, rest: string, sender: Option<string>)
    requires WindowsForm(path, drive, a, b, c, user, rest) && Named(user, sender)
    ensures StripWindows(path, sender) == Some(rest)
  {
    UserOkIff(user, sender);
    Join4(WindowsHead(drive, a, b), user, [c], rest);
    WindowsStarts(path, drive, a, b);
    UsersStart(path, b);
    if path == WindowsHead(drive, a, b) + user + [c] + rest {
      SplitAt(user, c, rest, true);
    } else {
      SplitNowhere(user, true);
    }
  }

  lemma StrippedIsWindows(path: string, sender: Option<string>) returns (drive: char, a: char, b: char, c: char, user: string)
    requires StripWindows(path, sender).Some?
    ensures WindowsForm(path, drive, a, b, c, user, StripWindows(path, sender).value) && Named(user, sender)
  {
    UsersStart(path, '/');
    var h := SplitFirst(path[9..], true);
    drive, a, b, user := path[0], path[2], path[8], h.left;
    UserOkIff(user, sender);
    c := SplitOf(path[9..], true);
    WindowsStarts(path, drive, a, b);
    WindowsWhole(path, drive, a, b, c, h);
  }

  lemma WindowsWhole(path: string, drive: char, a: char, b: char, c: char, h: Halves)
    requires |path| >= 9 && path[..9] == WindowsHead(drive, a, b) && SplitsAs(path[9..], h, c, true)
    requires Letter(drive) && Slash(a) && Slash(b)
    ensures WindowsForm(path, drive, a, b, c, h.left, h.right)
  {
    assert path == path[..9] + path[9..];
    Join4(WindowsHead(drive, a, b), h.left, [c], h.right);
  }

  lemma TempStrips(path: string, drive: char, a: char, temp: string, b: char, rest: string)
    requires TempForm(path, drive, a, temp, b, rest)
    ensures StripTemp(path) == Some(rest)
  {
    SameNameIff(temp, "temp");
    assert LowerAll("temp") == "temp";
    var after := path[3..];
    if path == [drive, ':', a] + temp + [b] + rest {
      assert after == temp + [b] + rest;
      assert LowerAll(after)[..5] == LowerAll(temp) + [b];
    } else {
      assert after == temp;
    }
  }

  lemma StrippedIsTemp(path: string) returns (drive: char, a: char, temp: string, b: char)
    requires StripTemp(path).Some?
    ensures TempForm(path, drive, a, temp, b, StripTemp(path).value)
  {
    var after := path[3..];
    drive, a, temp := path[0], path[2], after[..4];
    b := if |after| > 4 then after[4] else '/';
    assert LowerAll("temp") == "temp";
    assert LowerAll(temp) == LowerAll(after)[..4];
    SameNameIff(temp, "temp");
    assert path == [drive, ':', a] + after;
    if |after| > 4 {
      assert LowerAll(after)[4] == Lower(b);
      assert after == temp + [b] + after[5..];
    }
  }

  // ---- What translation makes of them -----------------------------------------------------

  /** `path` stands for `~/rest` of this sender: as written, or as Git Bash or MSYS pass it on. */
  ghost predicate HomeForm(path: string, os: Os, sender: Option<string>, rest: string) {
    || path == "~/" + rest
    || (os != Windows && exists drive, user :: GitBashForm(path, drive, user, rest) && Named(user, sender))
    || (os != Windows && exists drive, a, b, c, user :: WindowsForm(path, drive, a, b, c, user, rest) && Named(user, sender))
  }

  /** It stands for `/tmp/rest`. */
  ghost predicate TempOf(path: string, os: Os, rest: string) {
    os != Windows && exists drive, a, temp, b :: TempForm(path, drive, a, temp, b, rest)
  }

  lemma GitBashIff(path: string, sender: Option<string>, rest: string)
    ensures StripGitBash(path, sender) == Some(rest) <==>
      exists drive, user :: GitBashForm(path, drive, user, rest) && Named(user, sender)
  {
    if StripGitBash(path, sender) == Some(rest) {
      var drive, user := StrippedIsGitBash(path, sender);
    }
    if drive, user :| GitBashForm(path, drive, user, rest) && Named(user, sender) {
      GitBashStrips(path, drive, user, rest, sender);
    }
  }

  lemma WindowsIff(path: string, sender: Option<string>, rest: string)
    ensures StripWindows(path, sender) == Some(rest) <==>
      exists drive, a, b, c, user :: WindowsForm(path, drive, a, b, c, user, rest) && Named(user, sender)
  {
    if StripWindows(path, sender) == Some(rest) {
      var drive, a, b, c, user := StrippedIsWindows(path, sender);
    }
    if drive, a, b, c, user :| WindowsForm(path, drive, a, b, c, user, rest) && Named(user, sender) {
      WindowsStrips(path, drive, a, b, c, user, rest, sender);
    }
  }

  lemma TempIff(path: string, rest: string)
    ensures StripTemp(path) == Some(rest) <==> exists drive, a, temp, b :: TempForm(path, drive, a, temp, b, rest)
  {
    if StripTemp(path) == Some(rest) {
      var drive, a, temp, b := StrippedIsTemp(path);
    }
    if drive, a, temp, b :| TempForm(path, drive, a, temp, b, rest) {
      TempStrips(path, drive, a, temp, b, rest);
    }
  }

  /** The path without line ends after it. */
  predicate Line(input: string, t: string) {
    && t <= input && (t != "" ==> t[|t| - 1] !in "\r\n")
    && forall i :: |t| <= i < |input| ==> input[i] in "\r\n"
  }

  lemma {:induction false} LineIff(input: string, t: string)
    ensures Line(input, t) <==> TrimEol(input) == t
    decreases |input|
  {
    if input != "" && input[|input| - 1] in "\r\n" {
      LineIff(input[..|input| - 1], t);
      LineShorter(input, t);
    }
  }

  lemma LineShorter(input: string, t: string)
    requires input != "" && input[|input| - 1] in "\r\n"
    ensures Line(input, t) <==> Line(input[..|input| - 1], t)
  {
    if Line(input, t) {
      assert t != input;
      assert t <= input[..|input| - 1];
    }
  }

  lemma TildeIff(t: string, rest: string)
    ensures t == "~/" + rest <==> StartsWith(t, "~/") && t[2..] == rest
  {
    if StartsWith(t, "~/") {
      assert t == t[..2] + t[2..];
    }
  }

  /** The forms do not overlap: they start with a tilde, a slash, or a letter and a colon, and a drive
      has either `Users` or `Temp`. */
  lemma HomeFormIff(t: string, os: Os, sender: Option<string>, rest: string)
    ensures HomeForm(t, os, sender, rest) <==>
      if StartsWith(t, "~/") then t[2..] == rest
      else
        os != Windows
        && (StripGitBash(t, sender) == Some(rest) || (StripGitBash(t, sender).None? && StripWindows(t, sender) == Some(rest)))
  {
    TildeIff(t, rest);
    GitBashIff(t, sender, rest);
    WindowsIff(t, sender, rest);
    if StartsWith(t, "~/") {
      assert t[0] == t[..2][0] == '~';
      assert StripGitBash(t, sender).None? && StripWindows(t, sender).None?;
    }
  }

  /** Backslashes as slashes. */
  function Forward(s: string): (r: string)
    ensures |r| == |s| && forall i :: 0 <= i < |s| ==> r[i] == if s[i] == '\\' then '/' else s[i]
  {
    Replace(s, '\\', '/')
  }

  /** Slashes as backslashes. */
  function Backward(s: string): (r: string)
    ensures |r| == |s| && forall i :: 0 <= i < |s| ==> r[i] == if s[i] == '/' then '\\' else s[i]
  {
    Replace(s, '/', '\\')
  }

  /** A path that stands for one in the sender's home is joined to the receiver's, whatever its form: the
      three forms of one path are translated alike. */
  lemma HomePaths(input: string, t: string, home: string, os: Os, sender: Option<string>, rest: string)
    requires Line(input, t) && HomeForm(t, os, sender, rest)
    ensures Translate(input, home, os, sender) == Translated(JoinHome(home, rest), true)
  {
    LineIff(input, t);
    HomeFormIff(t, os, sender, rest);
    if !StartsWith(t, "~/") {
      assert t != "~";
    }
  }

  /** One that stands for a path under /tmp goes there. */
  lemma TempPaths(input: string, t: string, home: string, os: Os, sender: Option<string>, rest: string)
    requires Line(input, t) && TempOf(t, os, rest)
    ensures Translate(input, home, os, sender) ==
      Translated(if rest == "" then "/tmp" else "/tmp/" + Forward(rest), true)
  {
    LineIff(input, t);
    TempIff(t, rest);
    TempIsLast(t, sender);
  }

  lemma TempIsLast(t: string, sender: Option<string>)
    requires StripTemp(t).Some?
    ensures StripGitBash(t, sender).None? && StripWindows(t, sender).None? && !StartsWith(t, "~/") && t != "~"
  {
    TempIsNotUsers(t);
    FirstChar(t, "~/");
  }

  ghost predicate IsRewritable(t: string, os: Os, sender: Option<string>) {
    t == "~" || (exists rest :: HomeForm(t, os, sender, rest)) || (exists rest :: TempOf(t, os, rest))
  }

  /** A lone tilde is the home, and any path of another form is left, without its line end. */
  lemma OtherPaths(input: string, t: string, home: string, os: Os, sender: Option<string>)
    requires Line(input, t)
    ensures t == "~" ==> Translate(input, home, os, sender) == Translated(home, true)
    ensures !IsRewritable(t, os, sender) ==> Translate(input, home, os, sender) == Translated(t, false)
    ensures Translate(input, home, os, sender).rewritten <==> IsRewritable(t, os, sender)
  {
    LineIff(input, t);
    if Translate(input, home, os, sender).rewritten && t != "~" {
      RewriteHasForm(input, t, home, os, sender);
    }
    if rest :| HomeForm(t, os, sender, rest) {
      HomePaths(input, t, home, os, sender, rest);
    }
    if rest :| TempOf(t, os, rest) {
      TempPaths(input, t, home, os, sender, rest);
    }
  }

  lemma RewriteHasForm(input: string, t: string, home: string, os: Os, sender: Option<string>)
    requires TrimEol(input) == t && t != "~" && Translate(input, home, os, sender).rewritten
    ensures (exists rest :: HomeForm(t, os, sender, rest)) || (exists rest :: TempOf(t, os, rest))
  {
    if StartsWith(t, "~/") {
      HomeFormIff(t, os, sender, t[2..]);
    } else if StripGitBash(t, sender).Some? {
      HomeFormIff(t, os, sender, StripGitBash(t, sender).value);
    } else if StripWindows(t, sender).Some? {
      HomeFormIff(t, os, sender, StripWindows(t, sender).value);
    } else {
      TempIff(t, StripTemp(t).value);
      assert TempOf(t, os, StripTemp(t).value);
    }
  }

  /** What joining means: the home without the slashes at its end, one separator, and the rest without
      those at its start, in the home's own style. */
  lemma JoinMeans(home: string, base: string, a: string, rest: string, b: string, suffix: string)
    requires home == base + a && AllSlashes(a) && (base != "" ==> !Slash(base[|base| - 1]))
    requires rest == b + suffix && AllSlashes(b) && (suffix != "" ==> !Slash(suffix[0]))
    ensures JoinHome(home, rest) ==
      if suffix == "" then base
      else if '\\' in base && '/' !in base then base + "\\" + Backward(suffix)
      else base + "/" + Forward(suffix)
  {
    TrimRightIs(base, a);
    TrimLeftIs(b, suffix);
  }

  lemma {:induction false} TrimRightIs(base: string, a: string)
    requires AllSlashes(a) && (base != "" ==> !Slash(base[|base| - 1]))
    ensures TrimSlashesRight(base + a) == base
  {
    if a == "" {
      assert base + a == base;
    } else {
      assert (base + a)[..|base + a| - 1] == base + a[..|a| - 1];
      TrimRightIs(base, a[..|a| - 1]);
    }
  }

  lemma {:induction false} TrimLeftIs(b: string, suffix: string)
    requires AllSlashes(b) && (suffix != "" ==> !Slash(suffix[0]))
    ensures TrimSlashesLeft(b + suffix) == suffix
  {
    if b == "" {
      assert b + suffix == suffix;
    } else {
      assert (b + suffix)[1..] == b[1..] + suffix;
      TrimLeftIs(b[1..], suffix);
    }
  }

  /** What is sent: a path in one of the home forms, or a lone tilde, is sent as translated; one that is
      in no form is sent as it is, up to its line end. */
  lemma SentIs(input: string, t: string, home: string, os: Os, sender: Option<string>)
    requires Line(input, t)
    ensures t == "~" || (exists rest :: HomeForm(t, os, sender, rest)) ==>
      Sent(input, home, os, sender) == Translate(input, home, os, sender).remote
    ensures !IsRewritable(t, os, sender) ==> Sent(input, home, os, sender) in [input, t]
  {
    LineIff(input, t);
    OtherPaths(input, t, home, os, sender);
    FilterMissesRule4(input, home, os, sender);
    if rest :| HomeForm(t, os, sender, rest) {
      HomeFormIff(t, os, sender, rest);
    }
  }

  /** How the receiver's system is told from its home. */
  lemma SystemIff(home: string)
    ensures ClassifyOs(home) == Linux <==> exists rest :: home == "/" + rest
    ensures ClassifyOs(home) == Windows <==>
      (exists drive, rest :: Letter(drive) && home == [drive, ':'] + rest) || ('\\' in home && home[0] != '/')
  {
    if StartsWith(home, "/") {
      assert home == "/" + home[1..];
    }
    if |home| >= 2 && Letter(home[0]) && home[1] == ':' {
      assert home == [home[0], ':'] + home[2..];
    }
  }
}
