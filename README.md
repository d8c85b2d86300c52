# markdir in Dafny

markdir is a small local server for Markdown notes. It serves the current
directory over HTTP. A request whose URL path ends in `.md` or `/guide` gets the
file at `"." + path`, converted from Markdown to HTML and wrapped in a page
template. Any other request goes to Go's static file server. A helper file,
path.go, expands a leading `~` to the home directory and chooses the code root
and the content root.

This project models both parts:

- `markdir.dfy` (module `Markdir`) models `renderer.ServeHTTP` and the page template.
  The handler is a function that returns a `Response` value: `Delegate`,
  `Error(status, message)` (a call to `http.Error`), or `Rendered(contentType, page)`
  (the Content-Type header set, then the template executed).
  The file read (`readFile`) and the Markdown converter (`convert`) are parameters.
  So is the HTML escaping of the title (`escape`).
- `path.dfy` (module `Paths`) models `Expand`, `Home`, `GetCodeRoot` and `GetContentRoot`.
  The environment is its list of `name=value` entries. `Getenv` reads the first entry
  whose name matches, and an unset variable reads as "". On Windows, names match
  regardless of case, so `HOMEDRIVE` answers a lookup of `HomeDrive`.
  The OS name, `filepath.Join`, `filepath.Abs` and the result of `os.Getwd` are parameters.
  Go's `(string, error)` pairs are the datatype `Returned(value, err)`, so that
  "an error comes with an empty string" can be stated.
- `strings.dfy` (module `Strings`) models Go's `strings.HasPrefix` and `strings.HasSuffix`.
  `HasSuffixSplit` says that a string with suffix `t` is what comes before `t`,
  followed by `t`. `HasSuffixSnoc` says when `HasSuffix` still holds after one
  character is appended.
- `wrappers.dfy` holds the `Option` datatype.

A Dafny `string` here stands for a Go string read as bytes, one character per
byte. Under that reading, Go's `string(b)` conversion is `BytesToString`. The
byte operations `strings.HasSuffix`, `"." + path` and `path[1:]` are the same
operations on sequences.

What the handler does, and what it does not do:

- the only suffixes are `.md` and `/guide`;
- there is no index lookup;
- every `*os.PathError` is a 404, permission errors included;
- an error while executing the template is ignored, so a successful read always
  yields a rendered page.

## Model

| member | source | states |
|---|---|---|
| `Markdir.ServeHTTP` | markdir.go:59-93 | The result is `Delegate` exactly when the path ends in neither `.md` nor `/guide`. A 404 comes exactly when reading `"." + path` gives a PathError, with message `"Not Found: " + path`. A 500 comes exactly when the read gives any other error, with message `"Internal Server Error: "` + the error text. No other status occurs, so a PathError never yields 500. A successful read is always rendered, with Content-Type `text/html; charset=utf-8`, the request path as title and the converter's output, byte for byte, as body. |
| `Markdir.Claims` | markdir.go:60 | A path is claimed exactly when it is some string followed by `.md`, or some string followed by `/guide`. |
| `Markdir.ReadTarget` | markdir.go:68 | The file read is the request path with a single `.` in front. |
| `Markdir.BytesToString` | markdir.go:90 | The converter's bytes become the body one for one: same length, same codes. |
| `Markdir.UnclaimedReadsNothing` | markdir.go:60-63 | For an unclaimed path the answer is `Delegate`, whatever the file system and converter are. |
| `Markdir.ReadsOnlyTarget` | markdir.go:67-68 | Two file systems that agree on `"." + path` give the same answer. |
| `Markdir.ParentSegmentIsRead` | markdir.go:65-68 | `/../secret.md` is claimed, and the file read for it is `./../secret.md`, outside the served directory. A successful read of it is rendered. |
| `Markdir.ConvertsOnlyAfterRead` | markdir.go:67-81 | When the read fails, the converter does not affect the answer. |
| `Markdir.ClaimsAppend` | markdir.go:60 | Matching is by exact suffix. Adding one character keeps a path claimed only if that character completes `.md` or `/guide`. |
| `Markdir.ClaimsExamples` | markdir.go:60 | `/x.md` and `/a/guide` are claimed. `foo.mdx`, `/guides`, `/notes.markdown` and `/docs/` are not. |
| `Markdir.Execute` | markdir.go:42-52 | The document begins with the fixed head, the escaped path and the fixed middle of the template. It ends with the template's fixed tail. |
| `Markdir.ExecuteBodyVerbatim` | markdir.go:85-91 | The body can be cut back out of the document between the head and the tail: it is inserted without change. |
| `Markdir.ExecuteInjective` | markdir.go:49 | Two pages with the same path but different bodies give different documents. |
| `Paths.Getenv` | path.go:33-49 | The value is that of the first entry whose name matches the key, case-insensitively on Windows and exactly elsewhere. When no entry matches, the value is "". |
| `Paths.GetenvFirstEntryWins` | path_test.go:24 | A variable set in front of the environment is the value that is read. |
| `Paths.GetenvCaseExamples` | path.go:33-35 | On Windows, `HOMEDRIVE`, `HOMEPATH` and `USERPROFILE` answer the names the code asks for. Elsewhere, `home` does not answer `HOME`. |
| `Paths.HomeOnWindowsIgnoresCase` | path.go:31-37 | On Windows, an environment with upper-case `HOMEDRIVE`, `HOMEPATH` and `USERPROFILE` gives the join of drive and path as home, or the profile when that join is empty. |
| `Paths.Home` | path.go:28-46 | The error is `ErrNoHome` exactly when the chosen value is empty, and the string is then empty. Outside Windows the value is `HOME`. On Windows it is `Join(HomeDrive, HomePath)`, or `UserProfile` when that join is empty. |
| `Paths.HomeReadsOnlyHOME` | path.go:38-40 | Outside Windows, two environments with the same `HOME` give the same result, whatever `Join` is. |
| `Paths.HomeUserProfileIsFallback` | path.go:32-36 | On Windows, `UserProfile` does not matter when the drive/path join is non-empty. |
| `Paths.Expand` | path.go:15-26 | A path without a leading `~` is returned unchanged. With a `~` and no home, the result is "". With a home, the result starts with the home, continues with the path after its first character, and has exactly that length. |
| `Paths.ExpandTilde` | path.go:20-25 | With a home found, `Expand(p) == home + p[1..]`. |
| `Paths.ExpandExamples` | path.go:15-26 | `~` gives the home and `~/x` gives home + `/x`. `~user` gives home + `user`, since there is no user lookup. `.` stays `.`. |
| `Paths.ExpandIdempotent` | path.go:15-26 | Expanding an expanded path changes nothing, as long as the home does not itself begin with `~`. |
| `Paths.GetCodeRoot` | path.go:48-60 | A non-empty `MARKDIR_CODE_ROOT` is returned verbatim without error. Otherwise the result is the working directory, or `Getwd`'s error with an empty string. |
| `Paths.GetCodeRootExamples` | path_test.go:8-37 | With the variable unset or empty and `Getwd` succeeding, the result is the working directory. With `/tmp` set in front of the environment, the result is `/tmp`, whatever `Getwd` gives. |
| `Paths.GetContentRoot` | path.go:62-70 | The result is `Abs(Expand(root))` with no error. If `Abs` fails, its error is passed on with an empty path. |
| `Paths.ErrorsCarryEmptyPath` | path.go:42-70 | Whenever `Home`, `GetCodeRoot` or `GetContentRoot` returns an error, the string returned with it is empty. |

## Left out

- `main`, the `-bind` and `-v` flags, build and version printing, and `ListenAndServe` (markdir.go:19-40) are process start-up, not request logic.
- Log lines (markdir.go:71, 77) are output only and are left out.
- The Markdown conversion (`blackfriday.Run`) is an arbitrary function `convert`. markdown.go is not part of this model: the handler never calls it.
- The HTML escaping that `html/template` applies to the title is the parameter `escape`. The template's other contextual escaping is left out too.
- `ServeHTTP`'s `Error` value is the message and status passed to `http.Error`. The trailing newline and the extra headers that `http.Error` itself writes belong to net/http and are left out.
- The static file server, and what it answers for delegated requests, are left out.
- Actual file reads are the parameter `readFile`. `errors.As` finding an `*os.PathError` anywhere in the error chain is the `PathErr` outcome.
- Containment of reads inside the served directory is not claimed. The comment at markdir.go:65-66 assumes that net/http cleans the path, but nothing in the code shown does. `Markdir.ParentSegmentIsRead` states what the code does with a `..` segment. What net/http does before the handler runs is not part of this model.
- A failed write while the template executes is ignored by the code, so the model has no such outcome.
- `TestExpand` (path_test.go:39-47) expects `Expand(".")` to be the working directory. The code returns `"."` unchanged, and `Paths.ExpandExamples` states what the code does.
- `Paths.Getenv` folds only ASCII letters when it compares names on Windows. Windows folds other letters as well, but every name the code asks for is ASCII.
- The real environment, `runtime.GOOS`, `os.Getwd`, `filepath.Join` and `filepath.Abs` are parameters. Their own behaviour (for example, `Join("", "") == ""`) is not modelled.
