/** Pure POSIX path text: splitting into components and the normalized rendering. */
module PosixPath {

  /** The pieces between slashes; always at least one. */
  function Split(s: string): (r: seq<string>)
    ensures |r| >= 1
  {
    if s == "" then [""]
    else
      var rest := Split(s[1..]);
      if s[0] == '/' then [""] + rest
      else [[s[0]] + rest[0]] + rest[1..]
  }

  function Named(pieces: seq<string>): seq<string> {
    if pieces == [] then []
    else (if pieces[0] == "" || pieces[0] == "." then [] else [pieces[0]]) + Named(pieces[1..])
  }

  /** The components of a path, its root left out; empty pieces and single dots are dropped. */
  function Components(s: string): seq<string> {
    Named(Split(s))
  }

  function Join(parts: seq<string>): string {
    if parts == [] then ""
    else if |parts| == 1 then parts[0]
    else parts[0] + "/" + Join(parts[1..])
  }

  /** Exactly two leading slashes are kept; any other positive number stands for one. */
  function Root(s: string): string {
    if s == "" || s[0] != '/' then ""
    else if |s| >= 2 && s[1] == '/' && (|s| == 2 || s[2] != '/') then "//"
    else "/"
  }

  function AsPosix(s: string): string {
    var text := Root(s) + Join(Components(s));
    if text == "" then "." else text
  }

  /** An absolute, normalized path without parent traversal. */
  predicate IsGuestPath(s: string) {
    && s != "" && s[0] == '/'
    && ".." !in Components(s)
    && AsPosix(s) == s
  }
}
