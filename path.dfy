/**
  Home-directory expansion and root selection (path.go).

  The process environment, the operating system name, the working directory and
  the `path/filepath` functions `Join` and `Abs` are parameters: what remains is
  the choice between them, which this module states and proves.
 */
module Paths {
  import opened Wrappers
  import opened Strings

  /** The errors these functions can return. */
  datatype Error =
    | ErrNoHome                   // the package's sentinel `ErrNoHome`
    | SysError(message: string)   // an error from `os.Getwd` or `filepath.Abs`

  /** Go's `(string, error)` result pair; `err == None` stands for a nil error. */
  datatype Returned = Returned(value: string, err: Option<Error>)

  /**
    The process environment: its `name=value` entries in order. When a name occurs
    twice, the first entry is the one `os.Getenv` sees.
   */
  type Env = seq<(string, string)>

  const Windows := "windows"
  const CodeRootVariable := "MARKDIR_CODE_ROOT"

  /** ASCII upper case, the folding used to compare variable names on Windows. */
  function FoldCase(s: string): (f: string)
    ensures |f| == |s|
    ensures forall i :: 0 <= i < |s| ==> f[i] == if 'a' <= s[i] <= 'z' then (s[i] as int - 32) as char else s[i]
  {
    seq(|s|, i requires 0 <= i < |s| => if 'a' <= s[i] <= 'z' then (s[i] as int - 32) as char else s[i])
  }

  /** Whether an entry named `name` answers a lookup of `key`: regardless of case on Windows. */
  predicate NameMatches(goos: string, name: string, key: string) {
    if goos == Windows then FoldCase(name) == FoldCase(key) else name == key
  }

  /**
    `os.Getenv(key)`: the value of the first entry whose name matches `key`, or ""
    when no entry matches.
   */
  function Getenv(goos: string, env: Env, key: string): (v: string)
    ensures forall i :: 0 <= i < |env| && NameMatches(goos, env[i].0, key) ==>
      (forall j :: 0 <= j < i ==> !NameMatches(goos, env[j].0, key)) ==> v == env[i].1
    ensures (forall i :: 0 <= i < |env| ==> !NameMatches(goos, env[i].0, key)) ==> v == ""
  {
    if env == [] then ""
    else if NameMatches(goos, env[0].0, key) then env[0].1
    else Getenv(goos, env[1..], key)
  }

  /** Setting a variable in front of the environment makes it the one that is read. */
  lemma GetenvFirstEntryWins(goos: string, env: Env, key: string, value: string)
    ensures Getenv(goos, [(key, value)] + env, key) == value
  {
  }

  /**
    On Windows, `HOMEDRIVE`, `HOMEPATH` and `USERPROFILE` answer the lookups of
    `HomeDrive`, `HomePath` and `UserProfile`; elsewhere `home` does not answer `HOME`.
   */
  lemma GetenvCaseExamples(value: string)
    ensures Getenv(Windows, [("HOMEDRIVE", value)], "HomeDrive") == value
    ensures Getenv(Windows, [("HOMEPATH", value)], "HomePath") == value
    ensures Getenv(Windows, [("USERPROFILE", value)], "UserProfile") == value
    ensures Getenv("linux", [("home", value)], "HOME") == ""
  {
  }

  /**
    `Home()`: on Windows the join of `HomeDrive` and `HomePath`, or `UserProfile`
    when that join is empty; on every other system `HOME`. An empty choice is
    reported as `ErrNoHome` with an empty string.
   */
  function Home(goos: string, env: Env, join: (string, string) -> string): (r: Returned)
    ensures r.err == None <==> r.value != ""
    ensures r.err != None ==> r.err == Some(ErrNoHome)
    ensures goos != Windows ==> r.value == Getenv(goos, env, "HOME")
    ensures goos == Windows && join(Getenv(goos, env, "HomeDrive"), Getenv(goos, env, "HomePath")) != "" ==>
      r.value == join(Getenv(goos, env, "HomeDrive"), Getenv(goos, env, "HomePath"))
    ensures goos == Windows && join(Getenv(goos, env, "HomeDrive"), Getenv(goos, env, "HomePath")) == "" ==>
      r.value == Getenv(goos, env, "UserProfile")
  {
    var home :=
      if goos == Windows then
        var joined := join(Getenv(goos, env, "HomeDrive"), Getenv(goos, env, "HomePath"));
        if joined == "" then Getenv(goos, env, "UserProfile") else joined
      else
        Getenv(goos, env, "HOME");
    if home == "" then Returned("", Some(ErrNoHome)) else Returned(home, None)
  }

  /** Outside Windows, `Home` looks at `HOME` and nothing else. */
  lemma HomeReadsOnlyHOME(goos: string, env1: Env, env2: Env,
                          join1: (string, string) -> string, join2: (string, string) -> string)
    requires goos != Windows
    requires Getenv(goos, env1, "HOME") == Getenv(goos, env2, "HOME")
    ensures Home(goos, env1, join1) == Home(goos, env2, join2)
  {
  }

  /** On Windows, `UserProfile` is consulted only when the drive/path join is empty. */
  lemma HomeUserProfileIsFallback(env1: Env, env2: Env, join: (string, string) -> string)
    requires Getenv(Windows, env1, "HomeDrive") == Getenv(Windows, env2, "HomeDrive")
    requires Getenv(Windows, env1, "HomePath") == Getenv(Windows, env2, "HomePath")
    requires join(Getenv(Windows, env1, "HomeDrive"), Getenv(Windows, env1, "HomePath")) != ""
    ensures Home(Windows, env1, join) == Home(Windows, env2, join)
  {
  }

  /**
    `Expand(path)`: a path that does not begin with `~` is returned as it is;
    otherwise the `~` (the first character only) is replaced by the home
    directory, or the result is "" when there is none. There is no `~user` lookup.
   */
  function Expand(path: string, goos: string, env: Env, join: (string, string) -> string): (r: string)
    ensures !HasPrefix(path, "~") ==> r == path
    ensures HasPrefix(path, "~") && Home(goos, env, join).err != None ==> r == ""
    ensures HasPrefix(path, "~") && Home(goos, env, join).err == None ==>
      var home := Home(goos, env, join).value;
      HasPrefix(r, home) && r[|home|..] == path[1..] && |r| == |home| + |path| - 1
  {
    if !HasPrefix(path, "~") then path
    else
      var home := Home(goos, env, join);
      if home.err != None then ""
      else home.value + path[1..]
  }

  /** With a home found, a `~`-path is the home followed by everything after the `~`. */
  lemma ExpandTilde(path: string, goos: string, env: Env, join: (string, string) -> string)
    requires HasPrefix(path, "~")
    requires Home(goos, env, join).err == None
    ensures Expand(path, goos, env, join) == Home(goos, env, join).value + path[1..]
  {
  }

  /** "~" is the home, "~/x" is home + "/x", "~user" is home + "user", "." stays ".". */
  lemma ExpandExamples(goos: string, env: Env, join: (string, string) -> string)
    requires Home(goos, env, join).err == None
    ensures Expand("~", goos, env, join) == Home(goos, env, join).value
    ensures Expand("~/x", goos, env, join) == Home(goos, env, join).value + "/x"
    ensures Expand("~user", goos, env, join) == Home(goos, env, join).value + "user"
    ensures Expand(".", goos, env, join) == "."
  {
    ExpandTilde("~", goos, env, join);
    ExpandTilde("~/x", goos, env, join);
    ExpandTilde("~user", goos, env, join);
    assert "."[..1][0] != "~"[0];
  }

  /**
    A Windows environment spelled in upper case, as Windows itself spells it, still
    gives `Home` its drive, path and profile.
   */
  lemma HomeOnWindowsIgnoresCase(drive: string, path: string, profile: string, join: (string, string) -> string)
    ensures var env := [("HOMEDRIVE", drive), ("HOMEPATH", path), ("USERPROFILE", profile)];
      Home(Windows, env, join).value == if join(drive, path) != "" then join(drive, path) else profile
  {
    var env := [("HOMEDRIVE", drive), ("HOMEPATH", path), ("USERPROFILE", profile)];
    assert Getenv(Windows, env, "HomeDrive") == drive;
    assert Getenv(Windows, env[1..], "HomePath") == path by { GetenvCaseExamples(path); }
    assert Getenv(Windows, env[2..], "UserProfile") == profile by { GetenvCaseExamples(profile); }
  }

  /**
    Expanding twice is expanding once, provided the home directory does not itself
    begin with `~` (then the expanded path no longer does either).
   */
  lemma ExpandIdempotent(path: string, goos: string, env: Env, join: (string, string) -> string)
    requires !HasPrefix(Home(goos, env, join).value, "~")
    ensures var once := Expand(path, goos, env, join);
      Expand(once, goos, env, join) == once
  {
  }

  /**
    `GetCodeRoot()`: a non-empty `MARKDIR_CODE_ROOT` is returned verbatim;
    otherwise the working directory, or `os.Getwd`'s error with an empty string.
   */
  function GetCodeRoot(goos: string, env: Env, getwd: Returned): (r: Returned)
    ensures Getenv(goos, env, CodeRootVariable) != "" ==> r == Returned(Getenv(goos, env, CodeRootVariable), None)
    ensures Getenv(goos, env, CodeRootVariable) == "" && getwd.err != None ==> r == Returned("", getwd.err)
    ensures Getenv(goos, env, CodeRootVariable) == "" && getwd.err == None ==> r == Returned(getwd.value, None)
  {
    var path := Getenv(goos, env, CodeRootVariable);
    if path != "" then Returned(path, None)
    else if getwd.err != None then Returned("", getwd.err)
    else Returned(getwd.value, None)
  }

  /** The two cases of the package's tests: the variable unset or empty, and set to "/tmp". */
  lemma GetCodeRootExamples(goos: string, env: Env, getwd: Returned)
    ensures Getenv(goos, env, CodeRootVariable) == "" && getwd.err == None ==>
      GetCodeRoot(goos, env, getwd) == Returned(getwd.value, None)
    ensures GetCodeRoot(goos, [(CodeRootVariable, "/tmp")] + env, getwd) == Returned("/tmp", None)
  {
  }

  /**
    `GetContentRoot(contentRoot)`: `filepath.Abs` of the expanded root; an error of
    `Abs` is passed on with an empty path, and a success carries no error.
   */
  function GetContentRoot(contentRoot: string, goos: string, env: Env,
                          join: (string, string) -> string, abs: string -> Returned): (r: Returned)
    ensures var a := abs(Expand(contentRoot, goos, env, join));
      (a.err != None ==> r == Returned("", a.err)) &&
      (a.err == None ==> r == Returned(a.value, None))
  {
    var path := Expand(contentRoot, goos, env, join);
    var a := abs(path);
    if a.err != None then Returned("", a.err) else Returned(a.value, None)
  }

  /** Follows the Go convention: whenever an error is returned, the path is empty. */
  lemma ErrorsCarryEmptyPath(goos: string, env: Env, join: (string, string) -> string,
                             getwd: Returned, abs: string -> Returned, contentRoot: string)
    ensures Home(goos, env, join).err != None ==> Home(goos, env, join).value == ""
    ensures GetCodeRoot(goos, env, getwd).err != None ==> GetCodeRoot(goos, env, getwd).value == ""
    ensures GetContentRoot(contentRoot, goos, env, join, abs).err != None ==>
      GetContentRoot(contentRoot, goos, env, join, abs).value == ""
  {
  }
}
