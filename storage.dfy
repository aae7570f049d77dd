/**
 * lib/storage.js: named files under the storage directory, held here as a
 * map from file name to contents. Files named in `unavailable` stand for the
 * file-system failures (permissions, a missing directory) that make every
 * operation on them report an error; reading a file that was never written
 * also reports an error, while appending to it or clearing it creates it.
 */
module Storage {
  import opened Base

  /** The contents of a file, the empty string when it does not exist yet. */
  function ContentsOf(files: map<string, string>, name: string): string {
    if name in files then files[name] else ""
  }

  /** The files after `fs.appendFile(name, str + '\n')`. */
  function Appended(files: map<string, string>, name: string, str: string): map<string, string> {
    files[name := ContentsOf(files, name) + str + "\n"]
  }

  /** What `read` delivers: the stored contents, or an error for a missing or failing file. */
  function ReadFile(files: map<string, string>, unavailable: set<string>, name: string): Result<string> {
    if name in files && name !in unavailable then Ok(files[name]) else Err(FileUnavailable(name))
  }

  // ---------------------------------------------------------------- trim and split

  /** The characters `String.prototype.trim` strips: white space and line terminators. */
  predicate IsTrimmable(c: char) {
    c == '\t' || c == '\n' || c == '\U{B}' || c == '\U{C}' || c == '\r' || c == ' '
    || c == '\U{A0}' || c == '\U{1680}' || ('\U{2000}' <= c <= '\U{200A}')
    || c == '\U{2028}' || c == '\U{2029}' || c == '\U{202F}' || c == '\U{205F}'
    || c == '\U{3000}' || c == '\U{FEFF}'
  }

  predicate AllTrimmable(s: string) {
    forall i :: 0 <= i < |s| ==> IsTrimmable(s[i])
  }

  function TrimStart(s: string): (t: string)
    ensures |t| <= |s| && t == s[|s| - |t|..]
    ensures AllTrimmable(s[..|s| - |t|])
    ensures |t| > 0 ==> !IsTrimmable(t[0])
  {
    if |s| > 0 && IsTrimmable(s[0]) then TrimStart(s[1..]) else s
  }

  function TrimEnd(s: string): (t: string)
    ensures |t| <= |s| && t == s[..|t|]
    ensures AllTrimmable(s[|t|..])
    ensures |t| > 0 ==> !IsTrimmable(t[|t| - 1])
  {
    if |s| > 0 && IsTrimmable(s[|s| - 1]) then TrimEnd(s[..|s| - 1]) else s
  }

  /** `s.trim()`. */
  function Trim(s: string): (t: string)
    ensures |t| <= |s|
    ensures |t| > 0 ==> !IsTrimmable(t[0]) && !IsTrimmable(t[|t| - 1])
  {
    var u := TrimStart(s);
    var t := TrimEnd(u);
    assert |t| > 0 ==> t[0] == u[0];
    t
  }

  /**
   * What `trim` promises: the result is a contiguous piece of the input,
   * everything cut off on either side is white space, and the result neither
   * starts nor ends with white space.
   */
  lemma TrimCutsOnlyWhitespace(s: string)
    ensures var t := Trim(s);
      exists i :: 0 <= i <= |s| - |t|
        && t == s[i..i + |t|]
        && AllTrimmable(s[..i]) && AllTrimmable(s[i + |t|..])
    ensures var t := Trim(s); |t| > 0 ==> !IsTrimmable(t[0]) && !IsTrimmable(t[|t| - 1])
  {
    var u := TrimStart(s);
    var t := TrimEnd(u);
    TrimmedPiece(s, u, t);
  }

  /** A piece cut from the front and then from the back, with only white space cut, sits at offset |s| - |u|. */
  lemma TrimmedPiece(s: string, u: string, t: string)
    requires |u| <= |s| && u == s[|s| - |u|..] && AllTrimmable(s[..|s| - |u|])
    requires |t| <= |u| && t == u[..|t|] && AllTrimmable(u[|t|..])
    requires |u| > 0 ==> !IsTrimmable(u[0])
    requires |t| > 0 ==> !IsTrimmable(t[|t| - 1])
    ensures exists i ::
      && 0 <= i <= |s| - |t|
      && t == s[i..i + |t|]
      && AllTrimmable(s[..i]) && AllTrimmable(s[i + |t|..])
    ensures |t| > 0 ==> !IsTrimmable(t[0]) && !IsTrimmable(t[|t| - 1])
  {
    var i := |s| - |u|;
    SuffixPieces(s, i, |t|);
    if |t| > 0 {
      assert t[0] == u[0];
    }
  }

  /** Cutting a suffix of `s` again cuts `s` itself. */
  lemma SuffixPieces(s: string, i: nat, k: nat)
    requires i + k <= |s|
    ensures s[i..][..k] == s[i..i + k] && s[i..][k..] == s[i + k..]
  {
  }

  /** Trimming twice trims nothing more. */
  lemma TrimIdempotent(s: string)
    ensures Trim(Trim(s)) == Trim(s)
  {
    var t := Trim(s);
    if |t| > 0 {
      assert t[0] == TrimStart(s)[0];
      assert TrimStart(t) == t;
      assert TrimEnd(t) == t;
    }
  }

  /** `s.split(sep)`: the pieces between separators, never an empty list. */
  function Split(s: string, sep: char): (r: seq<string>)
    ensures |r| >= 1
    ensures forall i :: 0 <= i < |r| ==> sep !in r[i]
  {
    if |s| == 0 then [""]
    else
      var rest := Split(s[1..], sep);
      if s[0] == sep then [""] + rest else [[s[0]] + rest[0]] + rest[1..]
  }

  /** `xs.join(sep)`. */
  function Join(xs: seq<string>, sep: char): (r: string)
    requires |xs| >= 1
    ensures xs[0] <= r
    ensures |r| >= |xs[0]| + |xs| - 1
  {
    if |xs| == 1 then xs[0] else xs[0] + [sep] + Join(xs[1..], sep)
  }

  /** A join holds the separator at least once between each two pieces. */
  lemma {:induction false} JoinHasSeparators(xs: seq<string>, sep: char)
    requires |xs| >= 1
    ensures multiset(Join(xs, sep))[sep] >= |xs| - 1
    decreases |xs|
  {
    if |xs| > 1 {
      JoinHasSeparators(xs[1..], sep);
      assert Join(xs, sep) == xs[0] + [sep] + Join(xs[1..], sep);
    }
  }

  /** Joining the pieces with the separator gives back the split string. */
  lemma {:induction false} JoinSplit(s: string, sep: char)
    ensures Join(Split(s, sep), sep) == s
  {
    if |s| > 0 {
      var rest := Split(s[1..], sep);
      JoinSplit(s[1..], sep);
      if s[0] == sep {
        assert ([""] + rest)[1..] == rest;
      } else {
        var r := [[s[0]] + rest[0]] + rest[1..];
        if |rest| > 1 {
          assert r[1..] == rest[1..];
        }
      }
    }
  }

  lemma {:induction false} SplitAfterPiece(a: string, b: string, sep: char)
    requires sep !in a
    ensures Split(a + [sep] + b, sep) == [a] + Split(b, sep)
    ensures Split(a, sep) == [a]
  {
    if |a| == 0 {
      assert a + [sep] + b == [sep] + b;
      assert ([sep] + b)[1..] == b;
    } else {
      assert (a + [sep] + b)[1..] == a[1..] + [sep] + b;
      SplitAfterPiece(a[1..], b, sep);
      assert [a[0]] + a[1..] == a;
    }
  }

  /** Splitting a join of separator-free pieces gives back the pieces. */
  lemma {:induction false} SplitJoin(xs: seq<string>, sep: char)
    requires |xs| >= 1
    requires forall i :: 0 <= i < |xs| ==> sep !in xs[i]
    ensures Split(Join(xs, sep), sep) == xs
  {
    if |xs| == 1 {
      SplitAfterPiece(xs[0], "", sep);
    } else {
      SplitJoin(xs[1..], sep);
      SplitAfterPiece(xs[0], Join(xs[1..], sep), sep);
      assert [xs[0]] + xs[1..] == xs;
    }
  }

  /** The lines `readLines` delivers for file contents `data`: `data.trim().split('\n')`. */
  function Lines(data: string): (r: seq<string>)
    ensures |r| >= 1 && Join(r, '\n') == Trim(data)
    ensures forall i :: 0 <= i < |r| ==> '\n' !in r[i]
  {
    JoinSplit(Trim(data), '\n');
    Split(Trim(data), '\n')
  }

  /** The storage directory: file contents by name, and the names the file system refuses. */
  class BlobStore {
    var files: map<string, string>
    const unavailable: set<string>

    constructor (files: map<string, string>, unavailable: set<string>)
      ensures this.files == files && this.unavailable == unavailable
    {
      this.files := files;
      this.unavailable := unavailable;
    }

    /** What `read` delivers for a file in the current state. */
    function Reading(name: string): Result<string>
      reads this
    {
      ReadFile(files, unavailable, name)
    }

    /** `store`: append `str` and a newline to the file, never overwriting it. */
    method Store(name: string, str: string) returns (err: Option<Error>)
      modifies this
      ensures name in unavailable ==> err == Some(FileUnavailable(name)) && files == old(files)
      ensures name !in unavailable ==> err == None && files == Appended(old(files), name, str)
      ensures forall other :: other != name ==>
        (other in files <==> other in old(files)) && ContentsOf(files, other) == ContentsOf(old(files), other)
    {
      if name in unavailable {
        err := Some(FileUnavailable(name));
      } else {
        files := Appended(files, name, str);
        err := None;
      }
    }

    /** `clear`: overwrite the file with the empty string, creating it if needed. */
    method Clear(name: string) returns (err: Option<Error>)
      modifies this
      ensures name in unavailable ==> err == Some(FileUnavailable(name)) && files == old(files)
      ensures name !in unavailable ==> err == None && files == old(files)[name := ""]
      ensures forall other :: other != name ==>
        (other in files <==> other in old(files)) && ContentsOf(files, other) == ContentsOf(old(files), other)
    {
      if name in unavailable {
        err := Some(FileUnavailable(name));
      } else {
        files := files[name := ""];
        err := None;
      }
    }

    /** `read`: the file's contents exactly as stored; an error for a missing or failing file. */
    method Read(name: string) returns (r: Result<string>)
      ensures r.Ok? <==> name in files && name !in unavailable
      ensures r.Ok? ==> r.value == files[name]
      ensures r.Err? ==> r.error == FileUnavailable(name)
      ensures r == Reading(name)
    {
      if name in files && name !in unavailable {
        r := Ok(files[name]);
      } else {
        r := Err(FileUnavailable(name));
      }
    }

    /** `readLines`: a read error passes through; otherwise the trimmed contents split at newlines. */
    method ReadLines(name: string) returns (r: Result<seq<string>>)
      ensures r.Err? <==> Reading(name).Err?
      ensures r.Err? ==> r.error == Reading(name).error
      ensures r.Ok? ==> |r.value| >= 1 && Join(r.value, '\n') == Trim(files[name])
      ensures r.Ok? ==> forall i :: 0 <= i < |r.value| ==> '\n' !in r.value[i]
    {
      var data := Read(name);
      match data {
        case Err(e) =>
          r := Err(e);
        case Ok(contents) =>
          JoinSplit(Trim(contents), '\n');
          r := Ok(Lines(contents));
      }
    }
  }
}
