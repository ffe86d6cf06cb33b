/** The path helpers of fs0-core: splitting a path into directory and name, into
    components, and joining a directory with a name. */
module Paths {
  import opened Core

  /** Rust's `str::split('/')`: never empty, and empty pieces are kept. */
  function Split(s: string): (parts: seq<string>)
    ensures |parts| > 0
    ensures forall i :: 0 <= i < |parts| ==> '/' !in parts[i]
  {
    if s == "" then [""]
    else
      var rest := Split(s[1..]);
      if s[0] == '/' then [""] + rest else [[s[0]] + rest[0]] + rest[1..]
  }

  /** `names.join("/")`. */
  function JoinSlash(parts: seq<string>): string
  {
    if |parts| == 0 then ""
    else if |parts| == 1 then parts[0]
    else parts[0] + "/" + JoinSlash(parts[1..])
  }

  predicate ContainsDoubleSlash(s: string) {
    exists i :: 0 <= i < |s| - 1 && s[i] == '/' && s[i + 1] == '/'
  }

  /** `str::rsplit_once('/')`: the text before and after the last slash. */
  function RSplitOnce(s: string): (r: Option<(string, string)>)
    ensures r.None? <==> '/' !in s
    ensures r.Some? ==> s == r.value.0 + "/" + r.value.1 && '/' !in r.value.1
  {
    if s == "" then None
    else match RSplitOnce(s[1..])
      case Some(pair) =>
        assert s == [s[0]] + s[1..];
        Some(([s[0]] + pair.0, pair.1))
      case None =>
        assert s == [s[0]] + s[1..];
        if s[0] == '/' then Some(("", s[1..])) else None
  }

  predicate IsDots(name: string) { name == "." || name == ".." }

  /** What a single path component must look like. */
  predicate ValidName(name: string) {
    name != "" && !IsDots(name) && '/' !in name
  }

  predicate ValidNames(names: seq<string>) {
    forall i :: 0 <= i < |names| ==> ValidName(names[i])
  }

  function SplitDirAndName(path: string): Result<(string, string)> {
    if path == "" || path[0] != '/' || path[|path| - 1] == '/' || ContainsDoubleSlash(path) then
      Err(InvalidPath(path))
    else match RSplitOnce(path)
      case None => Err(InvalidPath(path))
      case Some((parent, name)) =>
        if name == "" || IsDots(name) || '/' in name then Err(InvalidPath(path))
        else if exists i :: 0 <= i < |Split(parent)| && IsDots(Split(parent)[i]) then Err(InvalidPath(path))
        else Ok((if parent == "" then "/" else parent, name))
  }

  function JoinPath(dir: string, name: string): string {
    if dir == "/" then "/" + name else dir + "/" + name
  }

  function SplitComponents(path: string): Result<seq<string>> {
    if path == "" || path[0] != '/' then Err(InvalidPath(path))
    else if path == "/" then Ok([])
    else
      var components := Split(path[1..]);
      if exists i :: 0 <= i < |components| && (components[i] == "" || IsDots(components[i]))
      then Err(InvalidPath(path))
      else Ok(components)
  }

  /** The absolute path with the given components. */
  function PathOf(names: seq<string>): string { "/" + JoinSlash(names) }

  lemma {:induction false} SplitName(s: string)
    requires '/' !in s
    ensures Split(s) == [s]
  {
    if s != "" {
      SplitName(s[1..]);
      assert s == [s[0]] + s[1..];
    }
  }

  /** The piece before the first slash grows by a character, or a new piece starts. */
  function Extend(c: char, parts: seq<string>): seq<string>
    requires |parts| > 0
  {
    if c == '/' then [""] + parts else [[c] + parts[0]] + parts[1..]
  }

  lemma {:induction false} ExtendConcat(c: char, a: seq<string>, b: seq<string>)
    requires |a| > 0
    ensures Extend(c, a + b) == Extend(c, a) + b
  {
    if c == '/' {
      assert [""] + (a + b) == ([""] + a) + b;
    } else {
      assert (a + b)[1..] == a[1..] + b;
    }
  }

  lemma {:induction false} SplitConcat(a: string, b: string)
    ensures Split(a + "/" + b) == Split(a) + Split(b)
  {
    var s := a + "/" + b;
    if a == "" {
      assert s[1..] == b;
    } else {
      SplitConcat(a[1..], b);
      assert s[1..] == a[1..] + "/" + b;
      assert Split(s) == Extend(a[0], Split(a[1..]) + Split(b));
      ExtendConcat(a[0], Split(a[1..]), Split(b));
      assert Split(a) == Extend(a[0], Split(a[1..]));
    }
  }

  /** Joining and splitting are inverse on slash-free pieces. */
  lemma {:induction false} SplitJoin(parts: seq<string>)
    requires |parts| > 0 && forall i :: 0 <= i < |parts| ==> '/' !in parts[i]
    ensures Split(JoinSlash(parts)) == parts
  {
    SplitName(parts[0]);
    if |parts| > 1 {
      SplitJoin(parts[1..]);
      SplitConcat(parts[0], JoinSlash(parts[1..]));
      assert parts == [parts[0]] + parts[1..];
    } else {
      assert parts == [parts[0]];
    }
  }

  lemma {:induction false} JoinSplit(s: string)
    ensures JoinSlash(Split(s)) == s
  {
    if s != "" {
      JoinSplit(s[1..]);
      var rest := Split(s[1..]);
      assert s == [s[0]] + s[1..];
      if s[0] == '/' {
        assert ([""] + rest)[1..] == rest;
      } else {
        var parts := [[s[0]] + rest[0]] + rest[1..];
        assert parts[1..] == rest[1..];
      }
    }
  }

  /** Empty pieces come exactly from a slash at either end or two slashes in a row. */
  lemma {:induction false} EmptyPieces(s: string)
    ensures (exists i :: 0 <= i < |Split(s)| && Split(s)[i] == "") <==>
            s == "" || s[0] == '/' || s[|s| - 1] == '/' || ContainsDoubleSlash(s)
    ensures Split(s)[0] == "" <==> s == "" || s[0] == '/'
  {
    if s == "" {
      assert Split(s)[0] == "";
    } else {
      var t := s[1..];
      EmptyPieces(t);
      var rest := Split(t);
      if s[0] == '/' {
        assert Split(s)[0] == "";
      } else {
        assert Split(s) == [[s[0]] + rest[0]] + rest[1..];
        forall i | 1 <= i < |rest| ensures Split(s)[i] == rest[i] {}
        DoubleSlashTail(s);
        LaterEmptyPieces(t);
      }
    }
  }

  lemma {:induction false} DoubleSlashTail(s: string)
    requires s != "" && s[0] != '/'
    ensures ContainsDoubleSlash(s) <==> ContainsDoubleSlash(s[1..])
  {
    var t := s[1..];
    if ContainsDoubleSlash(s) {
      var i :| 0 <= i < |s| - 1 && s[i] == '/' && s[i + 1] == '/';
      assert t[i - 1] == '/' && t[i - 1 + 1] == '/';
    }
    if ContainsDoubleSlash(t) {
      var i :| 0 <= i < |t| - 1 && t[i] == '/' && t[i + 1] == '/';
      assert s[i + 1] == '/' && s[i + 1 + 1] == '/';
    }
  }

  /** An empty piece behind a leading one is the first or a later one of the rest. */
  lemma {:induction false} EmptyAfterFirst(rest: seq<string>)
    requires rest != []
    ensures (exists i :: 1 <= i < |[""] + rest| && ([""] + rest)[i] == "") <==>
      rest[0] == "" || exists i :: 1 <= i < |rest| && rest[i] == ""
  {
    var all := [""] + rest;
    if rest[0] == "" { assert all[1] == ""; }
    if i :| 1 <= i < |rest| && rest[i] == "" { assert all[i + 1] == ""; }
    if i :| 1 <= i < |all| && all[i] == "" { assert rest[i - 1] == ""; }
  }

  /** A double slash behind a slash starts at that slash or later. */
  lemma {:induction false} LeadingSlash(s: string)
    requires s != "" && s[0] == '/'
    ensures ContainsDoubleSlash(s) <==> (s[1..] != "" && s[1] == '/') || ContainsDoubleSlash(s[1..])
  {
    var t := s[1..];
    if t != "" && t[0] == '/' { assert s[0] == '/' && s[0 + 1] == '/'; }
    if j :| 0 <= j < |t| - 1 && t[j] == '/' && t[j + 1] == '/' { assert s[j + 1] == '/' && s[j + 1 + 1] == '/'; }
    if i :| 0 <= i < |s| - 1 && s[i] == '/' && s[i + 1] == '/' {
      if i > 0 { assert t[i - 1] == '/' && t[i - 1 + 1] == '/'; }
    }
  }

  /** Beyond the first piece, empty pieces come from a final slash or a double one. */
  lemma {:induction false} LaterEmptyPieces(s: string)
    ensures (exists i :: 1 <= i < |Split(s)| && Split(s)[i] == "") <==>
            (s != "" && s[|s| - 1] == '/') || ContainsDoubleSlash(s)
  {
    if s != "" {
      var t := s[1..];
      LaterEmptyPieces(t);
      FirstPiece(t);
      var rest := Split(t);
      if s[0] == '/' {
        assert Split(s) == [""] + rest;
        EmptyAfterFirst(rest);
        LeadingSlash(s);
      } else {
        assert Split(s) == [[s[0]] + rest[0]] + rest[1..];
        forall i | 1 <= i < |rest| ensures Split(s)[i] == rest[i] {}
        DoubleSlashTail(s);
      }
    }
  }

  lemma {:induction false} FirstPiece(s: string)
    ensures Split(s)[0] == "" <==> s == "" || s[0] == '/'
  {}

  /** Whether some piece satisfies what path components must not. */
  predicate AnyDots(parts: seq<string>) { exists i :: 0 <= i < |parts| && IsDots(parts[i]) }

  predicate AnyEmpty(parts: seq<string>) { exists i :: 0 <= i < |parts| && parts[i] == "" }

  lemma {:induction false} AnyDotsConcat(a: seq<string>, b: seq<string>)
    ensures AnyDots(a + b) <==> AnyDots(a) || AnyDots(b)
  {
    if i :| 0 <= i < |a| && IsDots(a[i]) { assert IsDots((a + b)[i]); }
    if i :| 0 <= i < |b| && IsDots(b[i]) { assert IsDots((a + b)[|a| + i]); }
  }

  /** The pieces of an absolute path: an empty one, then its components; or the pieces of
      the text before the last slash, then the name. */
  lemma {:induction false} PiecesOf(path: string) returns (parent: string, name: string)
    requires path != "" && path[0] == '/'
    ensures RSplitOnce(path) == Some((parent, name)) && '/' !in name
    ensures AnyDots(Split(path[1..])) <==> AnyDots(Split(parent)) || IsDots(name)
    ensures name == "" <==> path[|path| - 1] == '/'
  {
    parent, name := RSplitOnce(path).value.0, RSplitOnce(path).value.1;
    assert path == "" + "/" + path[1..];
    SplitConcat("", path[1..]);
    SplitConcat(parent, name);
    SplitName(name);
    SplitName("");
    AnyDotsConcat([""], Split(path[1..]));
    AnyDotsConcat(Split(parent), [name]);
    assert AnyDots([name]) <==> IsDots(name) by { assert [name][0] == name; }
    if name != "" { assert path[|path| - 1] == name[|name| - 1]; }
  }

  lemma {:induction false} ComponentsOkIff(path: string)
    requires path != "" && path[0] == '/' && path != "/"
    ensures SplitComponents(path).Ok? <==>
      !AnyDots(Split(path[1..])) && path[|path| - 1] != '/' && !ContainsDoubleSlash(path)
  {
    EmptyPieces(path[1..]);
    BodySlashes(path);
    var components := Split(path[1..]);
    if i :| 0 <= i < |components| && (components[i] == "" || IsDots(components[i])) {
      assert AnyEmpty(components) || AnyDots(components);
    }
  }

  /** For every path other than the root, both splitters accept the same strings. */
  lemma {:induction false} SplittersAgree(path: string)
    requires path != "/"
    ensures SplitDirAndName(path).Ok? <==> SplitComponents(path).Ok?
  {
    if path != "" && path[0] == '/' {
      ComponentsOkIff(path);
      var parent, name := PiecesOf(path);
      assert AnyDots(Split(parent)) <==> exists i :: 0 <= i < |Split(parent)| && IsDots(Split(parent)[i]);
    }
  }

  lemma {:induction false} BodySlashes(path: string)
    requires path != "" && path[0] == '/' && path != "/"
    ensures path[|path| - 1] == '/' || ContainsDoubleSlash(path) <==>
            var body := path[1..];
            body[0] == '/' || body[|body| - 1] == '/' || ContainsDoubleSlash(body)
  {
    var body := path[1..];
    if body[0] == '/' { assert path[0] == '/' && path[0 + 1] == '/'; }
    if ContainsDoubleSlash(body) {
      var i :| 0 <= i < |body| - 1 && body[i] == '/' && body[i + 1] == '/';
      assert path[i + 1] == '/' && path[i + 1 + 1] == '/';
    }
    if ContainsDoubleSlash(path) {
      var i :| 0 <= i < |path| - 1 && path[i] == '/' && path[i + 1] == '/';
      if i > 0 { assert body[i - 1] == '/' && body[i - 1 + 1] == '/'; }
    }
  }

  /** Paths and lists of valid names are in one-to-one correspondence. */
  lemma {:induction false} ComponentsOfPath(names: seq<string>)
    requires ValidNames(names)
    ensures SplitComponents(PathOf(names)) == Ok(names)
  {
    if |names| > 0 {
      SplitJoin(names);
      assert PathOf(names)[1..] == JoinSlash(names);
      assert JoinSlash(names) != "" by { FirstPiece(JoinSlash(names)); }
    }
  }

  lemma {:induction false} PathOfComponents(path: string)
    requires SplitComponents(path).Ok?
    ensures ValidNames(SplitComponents(path).value)
    ensures PathOf(SplitComponents(path).value) == path
  {
    if path != "/" {
      JoinSplit(path[1..]);
      assert path == "/" + path[1..];
    }
  }

  lemma {:induction false} JoinSlashSnoc(names: seq<string>, name: string)
    requires |names| > 0
    ensures JoinSlash(names + [name]) == JoinSlash(names) + "/" + name
  {
    if |names| > 1 {
      JoinSlashSnoc(names[1..], name);
      assert (names + [name])[1..] == names[1..] + [name];
    }
  }

  /** Descending one component extends the path text by one `join_fs0_path`. */
  lemma {:induction false} PathOfSnoc(names: seq<string>, name: string)
    requires ValidNames(names)
    ensures PathOf(names + [name]) == JoinPath(PathOf(names), name)
  {
    if |names| > 0 {
      JoinSlashSnoc(names, name);
      if PathOf(names) == "/" {
        ComponentsOfPath(names);
      }
    } else {
      assert names + [name] == [name];
    }
  }

  lemma {:induction false} RSplitUnique(a: string, b: string)
    requires '/' !in b
    ensures RSplitOnce(a + "/" + b) == Some((a, b))
  {
    var s := a + "/" + b;
    if a == "" {
      assert s[1..] == b;
    } else {
      RSplitUnique(a[1..], b);
      assert s[1..] == a[1..] + "/" + b;
      assert a == [a[0]] + a[1..];
    }
  }

  /** What the last slash of a path cuts it into, in terms of its components. */
  lemma {:induction false} LastSlash(init: seq<string>, last: string)
    requires ValidNames(init + [last])
    ensures RSplitOnce(PathOf(init + [last])) == Some((if init == [] then "" else PathOf(init), last))
    ensures init != [] ==> PathOf(init) != "" && PathOf(init) != "/"
    ensures PathOf(init + [last]) == JoinPath(PathOf(init), last)
    ensures SplitComponents(PathOf(init)) == Ok(init)
  {
    assert (init + [last])[|init|] == last;
    forall i | 0 <= i < |init| ensures ValidName(init[i]) { assert (init + [last])[i] == init[i]; }
    PathOfSnoc(init, last);
    ComponentsOfPath(init);
    if init == [] {
      RSplitUnique("", last);
      assert "" + "/" + last == "/" + last;
    } else {
      RSplitUnique(PathOf(init), last);
    }
  }

  /** A path of given pieces is accepted if and only if no piece is empty or made of dots. */
  lemma {:induction false} PiecesAcceptedIff(pieces: seq<string>)
    requires pieces != [] && (forall i :: 0 <= i < |pieces| ==> '/' !in pieces[i]) && PathOf(pieces) != "/"
    ensures SplitComponents(PathOf(pieces)).Ok? <==>
      forall i :: 0 <= i < |pieces| ==> pieces[i] != "" && pieces[i] != "." && pieces[i] != ".."
    ensures SplitComponents(PathOf(pieces)) == Ok(pieces) || SplitComponents(PathOf(pieces)) == Err(InvalidPath(PathOf(pieces)))
    ensures SplitDirAndName(PathOf(pieces)).Ok? <==> SplitComponents(PathOf(pieces)).Ok?
  {
    SplitJoin(pieces);
    assert PathOf(pieces)[1..] == JoinSlash(pieces);
    SplittersAgree(PathOf(pieces));
  }

  /** Both splitters refuse a path with a component "." or "..", wherever it is. */
  lemma {:induction false} DotsRefused(before: string, dots: string, rest: string)
    requires dots == "." || dots == ".."
    ensures var last, inner := before + "/" + dots, before + "/" + dots + "/" + rest;
      && SplitComponents(last) == Err(InvalidPath(last)) && SplitDirAndName(last) == Err(InvalidPath(last))
      && SplitComponents(inner) == Err(InvalidPath(inner)) && SplitDirAndName(inner) == Err(InvalidPath(inner))
  {
    DotsInside(before, dots, "");
    DotsInside(before, dots, "/" + rest);
    assert before + "/" + dots + "" == before + "/" + dots;
    assert before + "/" + dots + ("/" + rest) == before + "/" + dots + "/" + rest;
  }

  lemma {:induction false} DotsInside(before: string, dots: string, tail: string)
    requires (dots == "." || dots == "..") && (tail == "" || tail[0] == '/')
    ensures var path := before + "/" + dots + tail;
      SplitComponents(path) == Err(InvalidPath(path)) && SplitDirAndName(path) == Err(InvalidPath(path))
  {
    var path := before + "/" + dots + tail;
    assert path != "/" by { assert path[|before| + 1] == '.'; }
    if path[0] == '/' {
      var i := DotsPiece(before, dots, tail);
      if before == "" {
        assert path[1..] == dots + tail;
      } else {
        assert path == "/" + (before[1..] + "/" + dots + tail);
      }
    }
    SplittersAgree(path);
  }

  /** The dots are one of the pieces behind the first slash. */
  lemma {:induction false} DotsPiece(before: string, dots: string, tail: string) returns (i: nat)
    requires (dots == "." || dots == "..") && (tail == "" || tail[0] == '/') && (before + "/")[0] == '/'
    ensures var parts := Split((before + "/" + dots + tail)[1..]); i < |parts| && parts[i] == dots
  {
    var body := dots + tail;
    SplitName(dots);
    if tail != "" {
      SplitConcat(dots, tail[1..]);
      assert body == dots + "/" + tail[1..];
    } else {
      assert body == dots;
    }
    assert Split(body)[0] == dots;
    var whole := (before + "/" + dots + tail)[1..];
    if before == "" {
      assert whole == body;
      i := 0;
    } else {
      assert whole == before[1..] + "/" + body;
      SplitConcat(before[1..], body);
      i := |Split(before[1..])|;
    }
  }

  /** Splitting off the name and joining it back gives the path, and the components
      of the directory followed by the name are the components of the path. */
  lemma {:induction false} DirNameRoundTrip(path: string)
    requires SplitDirAndName(path).Ok?
    ensures var (dir, name) := SplitDirAndName(path).value;
            && ValidName(name)
            && JoinPath(dir, name) == path
            && SplitComponents(dir).Ok?
            && SplitComponents(path) == Ok(SplitComponents(dir).value + [name])
  {
    var parent, name := CutOf(path);
    var names := ComponentsOf(path);
    CutIs(path, parent, name, names);
  }

  /** The cut at the last slash, in terms of the components. */
  lemma {:induction false} CutIs(path: string, parent: string, name: string, names: seq<string>)
    requires names != [] && ValidNames(names) && PathOf(names) == path && RSplitOnce(path) == Some((parent, name))
    ensures var dir := if parent == "" then "/" else parent;
      JoinPath(dir, name) == path && SplitComponents(dir).Ok? && SplitComponents(dir).value + [name] == names
  {
    var init, last := names[..|names| - 1], names[|names| - 1];
    assert names == init + [last];
    LastSlash(init, last);
  }

  lemma {:induction false} CutOf(path: string) returns (parent: string, name: string)
    requires SplitDirAndName(path).Ok?
    ensures RSplitOnce(path) == Some((parent, name))
    ensures SplitDirAndName(path) == Ok((if parent == "" then "/" else parent, name))
    ensures ValidName(name)
  {
    parent, name := RSplitOnce(path).value.0, RSplitOnce(path).value.1;
  }

  lemma {:induction false} ComponentsOf(path: string) returns (names: seq<string>)
    requires SplitDirAndName(path).Ok?
    ensures names != [] && ValidNames(names) && PathOf(names) == path && SplitComponents(path) == Ok(names)
  {
    SplittersAgree(path);
    PathOfComponents(path);
    names := SplitComponents(path).value;
  }

  /** The converse: a directory path joined with a valid name splits back into both. */
  lemma {:induction false} NameDirRoundTrip(dir: string, name: string)
    requires SplitComponents(dir).Ok? && ValidName(name)
    ensures SplitDirAndName(JoinPath(dir, name)) == Ok((dir, name))
  {
    var names := SplitComponents(dir).value;
    PathOfComponents(dir);
    PathOfSnoc(names, name);
    var path := JoinPath(dir, name);
    assert ValidNames(names + [name]);
    ComponentsOfPath(names + [name]);
    SplittersAgree(path);
    DirNameRoundTrip(path);
    var (d, n) := SplitDirAndName(path).value;
    assert SplitComponents(d).value + [n] == names + [name];
    assert (names + [name])[..|names|] == names;
    assert (SplitComponents(d).value + [n])[..|names|] == SplitComponents(d).value;
    PathOfComponents(d);
  }
}
