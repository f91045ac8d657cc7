/** Path normalisation and the allow-list check on file-system paths. Paths are slash-separated text. */
module Paths {
  import opened Basics
  import opened Text

  predicate IsAbsolute(path: string) {
    path != "" && path[0] == '/'
  }

  predicate EndsWithSlash(path: string) {
    path != "" && path[|path| - 1] == '/'
  }

  /** The text between slashes. */
  function Segments(s: string): (r: seq<string>)
    ensures r != []
  {
    if s == "" then [""]
    else
      var rest := Segments(s[1..]);
      if s[0] == '/' then [""] + rest else [[s[0]] + rest[0]] + rest[1..]
  }

  // --------------------------------------------------- the standard library

  datatype Component = RootDir | CurDir | ParentDir | Normal(name: string)

  /** Components of segments; a dot counts only in front of a relative path. */
  function ComponentsOf(segments: seq<string>, front: bool): seq<Component> {
    if segments == [] then []
    else
      var rest := ComponentsOf(segments[1..], false);
      if segments[0] == "" then rest
      else if segments[0] == "." then (if front then [CurDir] else []) + rest
      else if segments[0] == ".." then [ParentDir] + rest
      else [Normal(segments[0])] + rest
  }

  function Components(path: string): seq<Component> {
    if IsAbsolute(path) then [RootDir] + ComponentsOf(Segments(path), false)
    else ComponentsOf(Segments(path), true)
  }

  function TrimEndSlashes(s: string): string {
    if EndsWithSlash(s) then TrimEndSlashes(s[..|s| - 1]) else s
  }

  // ------------------------------------------------------- specification

  /** Walking down the segments: a double dot takes back the last name, but never one of the first keep names. */
  function Walk(keep: nat, names: seq<string>, segments: seq<string>): seq<string>
    decreases segments
  {
    if segments == [] then names
    else
      var s := segments[0];
      var names' :=
        if s == "" || s == "." then names
        else if s == ".." then (if |names| > keep then names[..|names| - 1] else names)
        else names + [s];
      Walk(keep, names', segments[1..])
  }

  /** The names a path resolves to. The first name of a relative path cannot be taken back. */
  function Resolved(path: string): seq<string> {
    Walk(if IsAbsolute(path) then 0 else 1, [], Segments(path))
  }

  predicate IsName(s: string) {
    s != "" && s != "." && s != ".." && '/' !in s
  }

  predicate AreNames(names: seq<string>) {
    forall k :: 0 <= k < |names| ==> IsName(names[k])
  }

  /** The text of a resolved path. */
  function Render(absolute: bool, names: seq<string>, trailing: bool): string {
    if names == [] then "/"
    else Join((if absolute then [""] else []) + names, "/") + if trailing then "/" else ""
  }

  function NormalForm(path: string): string {
    Render(IsAbsolute(path), Resolved(path), EndsWithSlash(path))
  }

  // --------------------------------------------------------------- names

  lemma {:induction false} SegmentsHaveNoSlash(s: string)
    ensures forall k :: 0 <= k < |Segments(s)| ==> '/' !in Segments(s)[k]
  {
    if s != "" {
      SegmentsHaveNoSlash(s[1..]);
    }
  }

  lemma {:induction false} WalkKeepsNames(keep: nat, names: seq<string>, segments: seq<string>)
    requires AreNames(names) && forall k :: 0 <= k < |segments| ==> '/' !in segments[k]
    ensures AreNames(Walk(keep, names, segments))
    decreases segments
  {
    if segments != [] {
      var s := segments[0];
      var names' :=
        if s == "" || s == "." then names
        else if s == ".." then (if |names| > keep then names[..|names| - 1] else names)
        else names + [s];
      assert AreNames(names');
      WalkKeepsNames(keep, names', segments[1..]);
    }
  }

  /** Resolved paths hold no empty name, no dot, no double dot and no slash. */
  lemma ResolvedAreNames(path: string)
    ensures AreNames(Resolved(path))
  {
    SegmentsHaveNoSlash(path);
    WalkKeepsNames(if IsAbsolute(path) then 0 else 1, [], Segments(path));
  }

  /** A slash in front of every name. */
  function Slashed(names: seq<string>): string {
    if names == [] then "" else "/" + names[0] + Slashed(names[1..])
  }

  lemma {:induction false} JoinIsSlashed(first: string, names: seq<string>)
    ensures Join([first] + names, "/") == first + Slashed(names)
    decreases |names|
  {
    if names == [] {
      assert [first] + names == [first];
      assert first + "" == first;
    } else {
      assert ([first] + names)[1..] == names;
      assert names == [names[0]] + names[1..];
      JoinIsSlashed(names[0], names[1..]);
      assert first + "/" + (names[0] + Slashed(names[1..])) == first + ("/" + names[0] + Slashed(names[1..]));
    }
  }

  lemma {:induction false} SlashedEnd(names: seq<string>)
    requires AreNames(names) && names != []
    ensures Slashed(names)[0] == '/' && !EndsWithSlash(Slashed(names))
    decreases |names|
  {
    if |names| > 1 {
      SlashedEnd(names[1..]);
    } else {
      assert Slashed(names) == "/" + names[0];
      assert Slashed(names)[|Slashed(names)| - 1] == names[0][|names[0]| - 1];
      assert names[0][|names[0]| - 1] in names[0];
    }
  }

  lemma JoinedNames(absolute: bool, names: seq<string>)
    requires AreNames(names)
    ensures var text := Join((if absolute then [""] else []) + names, "/");
            && (names == [] <==> text == "")
            && !EndsWithSlash(text)
            && (absolute ==> text == Slashed(names))
            && (!absolute && names != [] ==> text == names[0] + Slashed(names[1..]) && text[0] != '/')
  {
    var parts := (if absolute then [""] else []) + names;
    if absolute {
      JoinIsSlashed("", names);
      assert "" + Slashed(names) == Slashed(names);
      if names != [] { SlashedEnd(names); }
    } else if names != [] {
      assert parts == [names[0]] + names[1..];
      JoinIsSlashed(names[0], names[1..]);
      var text := names[0] + Slashed(names[1..]);
      assert text[0] == names[0][0] && names[0][0] in names[0];
      if |names| > 1 {
        SlashedEnd(names[1..]);
        assert text[|text| - 1] == Slashed(names[1..])[|Slashed(names[1..])| - 1];
      } else {
        assert text == names[0];
        assert text[|text| - 1] in names[0];
      }
    }
  }

  // ------------------------------------------------------------ the code

  lemma {:induction false} WalkStep(keep: nat, names: seq<string>, segments: seq<string>, front: bool)
    returns (names': seq<string>, segments': seq<string>)
    requires ComponentsOf(segments, front) != []
    ensures Walk(keep, names', segments') == Walk(keep, names, segments)
    ensures ComponentsOf(segments', false) == ComponentsOf(segments, front)[1..]
    ensures match ComponentsOf(segments, front)[0]
            case Normal(name) => names' == names + [name]
            case ParentDir => names' == if |names| > keep then names[..|names| - 1] else names
            case CurDir => names' == names
            case RootDir => false
    decreases segments
  {
    var s := segments[0];
    if s == "" || (s == "." && !front) {
      names', segments' := WalkStep(keep, names, segments[1..], false);
    } else {
      segments' := segments[1..];
      names' := if s == "." then names
                else if s == ".." then (if |names| > keep then names[..|names| - 1] else names)
                else names + [s];
    }
  }

  lemma {:induction false} WalkEnds(keep: nat, names: seq<string>, segments: seq<string>, front: bool)
    requires ComponentsOf(segments, front) == []
    ensures Walk(keep, names, segments) == names
    decreases segments
  {
    if segments != [] {
      WalkEnds(keep, names, segments[1..], false);
    }
  }

  method NormalizePath(path: string) returns (r: string)
    ensures r == NormalForm(path)
  {
    var components: seq<string> := [];
    var parsed := Components(path);
    ghost var root: seq<string> := if IsAbsolute(path) then [""] else [];
    ghost var names: seq<string>, segments, front := [], Segments(path), !IsAbsolute(path);
    var i := 0;
    if IsAbsolute(path) {
      assert parsed[1..] == ComponentsOf(segments, front);
      components := components + [""];
      i := 1;
    }
    while i < |parsed|
      invariant i <= |parsed|
      invariant components == root + names
      invariant ComponentsOf(segments, front) == parsed[i..]
      invariant Walk(1 - |root|, names, segments) == Resolved(path)
    {
      ghost var names', segments' := WalkStep(1 - |root|, names, segments, front);
      match parsed[i] {
        case Normal(name) =>
          components := components + [name];
        case RootDir =>
          assert false;
        case ParentDir =>
          if |components| > 1 {
            components := components[..|components| - 1];
          }
        case CurDir =>
      }
      names, segments, front := names', segments', false;
      i := i + 1;
    }
    WalkEnds(1 - |root|, names, segments, front);
    ResolvedAreNames(path);
    var result := Join(components, "/");
    JoinedNames(IsAbsolute(path), names);
    if result == "" {
      r := "/";
    } else if EndsWithSlash(path) && !EndsWithSlash(result) {
      r := result + "/";
    } else {
      r := result;
      assert result + "" == result;
    }
  }

  /** Why a path is refused. */
  datatype FsDenial = NotConfigured | NoPaths | NotAllowed

  /** The path is the directory or goes on below it. */
  predicate BeginsWith(path: string, directory: string) {
    directory <= path && (|path| == |directory| || path[|directory|] == '/')
  }

  /** What one entry of the allow list grants, as the check computes it from text. */
  predicate TextGrants(allowed: string, path: string) {
    var normalized := NormalForm(path);
    if EndsWithSlash(allowed) then BeginsWith(normalized, TrimEndSlashes(NormalForm(allowed)))
    else normalized == NormalForm(allowed)
  }

  method Grants(allowed: string, path: string, normalized: string) returns (granted: bool)
    requires normalized == NormalForm(path)
    ensures granted <==> TextGrants(allowed, path)
  {
    var form := NormalizePath(allowed);
    if EndsWithSlash(allowed) {
      var trimmed := TrimEndSlashes(form);
      return trimmed <= normalized && (|normalized| == |trimmed| || normalized[|trimmed|] == '/');
    }
    return normalized == form;
  }

  method CheckFsPermission(paths: Option<seq<string>>, path: string) returns (r: Result<(), FsDenial>)
    ensures r.Ok? <==> paths.Some? && exists allowed :: allowed in paths.value && TextGrants(allowed, path)
    ensures r.Err? ==> r.error == if paths == None then NotConfigured else if paths.value == [] then NoPaths else NotAllowed
  {
    if paths == None {
      return Err(NotConfigured);
    }
    if paths.value == [] {
      return Err(NoPaths);
    }
    var normalized := NormalizePath(path);
    for i := 0 to |paths.value|
      invariant forall k :: 0 <= k < i ==> !TextGrants(paths.value[k], path)
    {
      var granted := Grants(paths.value[i], path, normalized);
      if granted {
        return Ok(());
      }
    }
    return Err(NotAllowed);
  }

  // ------------------------------------------------- check meets components

  lemma ShorterMeetsSlash(x: string, u: string, y: string, v: string)
    requires u != "" ==> u[0] == '/'
    requires x + u == y + v
    ensures |x| < |y| ==> '/' in y
  {
    if |x| < |y| {
      assert (x + u)[|x|] == u[0];
      assert (y + v)[|x|] == y[|x|];
    }
  }

  /** Two slash-free names followed by nothing or by a slash. */
  lemma NameUnique(x: string, u: string, y: string, v: string)
    requires '/' !in x && '/' !in y
    requires u != "" ==> u[0] == '/'
    requires v != "" ==> v[0] == '/'
    requires x + u == y + v
    ensures x == y && u == v
  {
    ShorterMeetsSlash(x, u, y, v);
    ShorterMeetsSlash(y, v, x, u);
    assert x == (x + u)[..|x|] && y == (y + v)[..|y|];
    assert u == (x + u)[|x|..] && v == (y + v)[|y|..];
  }

  predicate AtBoundary(prefix: string, s: string) {
    prefix <= s && (|s| == |prefix| || s[|prefix|] == '/')
  }

  lemma BoundaryCons(x: string, u: string, y: string, v: string)
    requires '/' !in x && '/' !in y
    requires u != "" ==> u[0] == '/'
    requires v != "" ==> v[0] == '/'
    ensures AtBoundary("/" + x + u, "/" + y + v) <==> x == y && AtBoundary(u, v)
  {
    var p, s := "/" + x + u, "/" + y + v;
    if AtBoundary(p, s) {
      var w := s[|p|..];
      assert s == p + w;
      assert x + (u + w) == s[1..] == y + v;
      NameUnique(x, u + w, y, v);
    }
    if x == y && AtBoundary(u, v) {
      assert s == p + v[|u|..];
    }
  }

  lemma PrefixCons(a: seq<string>, b: seq<string>)
    requires a != [] && b != []
    ensures a <= b <==> a[0] == b[0] && a[1..] <= b[1..]
  {
    assert a == [a[0]] + a[1..] && b == [b[0]] + b[1..];
  }

  lemma {:induction false} TextPrefixIsNamePrefix(a: seq<string>, b: seq<string>, tail: string)
    requires AreNames(a) && AreNames(b)
    requires tail == "" || tail == "/"
    ensures AtBoundary(Slashed(a), Slashed(b) + tail) <==> a <= b
    decreases |a|
  {
    if a == [] {
      if b != [] { SlashedEnd(b); }
    } else if b == [] {
      assert |Slashed(a)| >= 2;
    } else {
      TextPrefixIsNamePrefix(a[1..], b[1..], tail);
      if a[1..] != [] { SlashedEnd(a[1..]); }
      if b[1..] != [] { SlashedEnd(b[1..]); }
      BoundaryCons(a[0], Slashed(a[1..]), b[0], Slashed(b[1..]) + tail);
      assert Slashed(b) + tail == "/" + b[0] + (Slashed(b[1..]) + tail);
      PrefixCons(a, b);
    }
  }

  /** The path starts at the root, or resolves to nothing and is then taken for the root. */
  predicate Anchored(path: string) {
    IsAbsolute(path) || Resolved(path) == []
  }

  lemma NormalFormShape(path: string)
    ensures Anchored(path) ==>
              exists tail :: (tail == "" || tail == "/") && NormalForm(path) == Slashed(Resolved(path)) + tail
                             && (tail == "/" <==> Resolved(path) == [] || EndsWithSlash(path))
    ensures !Anchored(path) ==> NormalForm(path) != "" && NormalForm(path)[0] != '/'
  {
    ResolvedAreNames(path);
    JoinedNames(IsAbsolute(path), Resolved(path));
    if Anchored(path) {
      var tail := if Resolved(path) == [] || EndsWithSlash(path) then "/" else "";
      assert NormalForm(path) == Slashed(Resolved(path)) + tail;
    }
  }

  lemma TrimmedForm(allowed: string)
    requires IsAbsolute(allowed) && EndsWithSlash(allowed)
    ensures TrimEndSlashes(NormalForm(allowed)) == Slashed(Resolved(allowed))
  {
    ResolvedAreNames(allowed);
    NormalFormShape(allowed);
    var names := Resolved(allowed);
    assert NormalForm(allowed) == Slashed(names) + "/";
    assert NormalForm(allowed)[..|NormalForm(allowed)| - 1] == Slashed(names);
    if names != [] { SlashedEnd(names); }
  }

  lemma ExactMeansEqual(a: seq<string>, b: seq<string>, tailA: string, tailB: string)
    requires AreNames(a) && AreNames(b)
    requires tailA == if a == [] then "/" else ""
    requires tailB == "" || tailB == "/"
    requires b == [] ==> tailB == "/"
    ensures Slashed(b) + tailB == Slashed(a) + tailA <==> a == b && tailA == tailB
  {
    if Slashed(b) + tailB == Slashed(a) + tailA {
      if a != [] { SlashedEnd(a); }
      if b != [] { SlashedEnd(b); }
      TextPrefixIsNamePrefix(a, b, tailB);
      TextPrefixIsNamePrefix(b, a, tailA);
      assert |Slashed(b)| <= |Slashed(a) + tailA|;
      if a == [] {
        assert |Slashed(b) + tailB| == 1;
      } else {
        assert Slashed(a) + tailA == Slashed(a);
        assert (Slashed(b) + tailB)[|Slashed(b) + tailB| - 1] == Slashed(a)[|Slashed(a)| - 1];
        assert tailB == "";
        assert Slashed(b) + tailB == Slashed(b);
      }
    }
  }

  /** For the allow lists the manifests may hold (absolute paths) and any requested path, the text check agrees
      with the names: a slash-ended entry grants exactly the paths whose names extend its own, another entry
      only the same names without a trailing slash. */
  lemma GrantsByNames(allowed: string, path: string)
    requires IsAbsolute(allowed)
    ensures EndsWithSlash(allowed) ==>
              (TextGrants(allowed, path) <==> Anchored(path) && Resolved(allowed) <= Resolved(path))
    ensures !EndsWithSlash(allowed) ==>
              (TextGrants(allowed, path) <==>
                 Anchored(path) && Resolved(path) == Resolved(allowed) && (Resolved(path) == [] || !EndsWithSlash(path)))
  {
    var a, b := Resolved(allowed), Resolved(path);
    ResolvedAreNames(allowed);
    ResolvedAreNames(path);
    NormalFormShape(path);
    NormalFormShape(allowed);
    if a != [] { SlashedEnd(a); }
    if b != [] { SlashedEnd(b); }
    if Anchored(path) {
      var tail :| (tail == "" || tail == "/") && NormalForm(path) == Slashed(b) + tail
                  && (tail == "/" <==> b == [] || EndsWithSlash(path));
      TextPrefixIsNamePrefix(a, b, tail);
      if EndsWithSlash(allowed) {
        TrimmedForm(allowed);
      } else {
        ExactMeansEqual(a, b, if a == [] then "/" else "", tail);
      }
    } else if EndsWithSlash(allowed) {
      TrimmedForm(allowed);
    }
  }

  // ----------------------------------------------------------- idempotence

  lemma {:induction false} SegmentsSplit(first: string, rest: string)
    requires '/' !in first
    ensures Segments(first) == [first]
    ensures Segments(first + "/" + rest) == [first] + Segments(rest)
    decreases |first|
  {
    var s := first + "/" + rest;
    if first == "" {
      assert s[1..] == rest;
    } else {
      assert first[0] in first;
      assert s[1..] == first[1..] + "/" + rest;
      SegmentsSplit(first[1..], rest);
      assert [first[0]] + first[1..] == first;
    }
  }

  lemma {:induction false} SegmentsExtend(path: string, last: string)
    requires '/' !in last
    ensures Segments(path + "/" + last) == Segments(path) + [last]
    decreases |path|
  {
    var s := path + "/" + last;
    SegmentsSplit(last, "");
    if path == "" {
      assert s[1..] == last;
    } else {
      assert s[1..] == path[1..] + "/" + last;
      SegmentsExtend(path[1..], last);
    }
  }

  lemma {:induction false} WalkExtends(keep: nat, names: seq<string>, segments: seq<string>, last: string)
    ensures Walk(keep, names, segments + [last]) == Walk(keep, Walk(keep, names, segments), [last])
    decreases segments
  {
    if segments == [] {
      assert segments + [last] == [last];
    } else {
      var s := segments[0];
      assert (segments + [last])[1..] == segments[1..] + [last];
      var names' :=
        if s == "" || s == "." then names
        else if s == ".." then (if |names| > keep then names[..|names| - 1] else names)
        else names + [s];
      WalkExtends(keep, names', segments[1..], last);
    }
  }

  /** One step further from any path: a name goes down, a dot or a slash stays, a double dot goes up, but not above the
      root of an absolute path nor the first name of another. */
  lemma OneStepFurther(path: string, name: string)
    requires path != "" && IsName(name)
    ensures Resolved(path + "/" + name) == Resolved(path) + [name]
    ensures Resolved(path + "/" + ".") == Resolved(path) == Resolved(path + "/" + "")
    ensures var names, keep := Resolved(path), if path[0] == '/' then 0 else 1;
            Resolved(path + "/" + "..") == if |names| > keep then names[..|names| - 1] else names
  {
    var keep := if IsAbsolute(path) then 0 else 1;
    SegmentsExtend(path, name);
    SegmentsExtend(path, ".");
    SegmentsExtend(path, "");
    SegmentsExtend(path, "..");
    WalkExtends(keep, [], Segments(path), name);
    WalkExtends(keep, [], Segments(path), ".");
    WalkExtends(keep, [], Segments(path), "");
    WalkExtends(keep, [], Segments(path), "..");
  }

  /** And where it starts: a single name, or nothing. */
  lemma FirstStep(name: string)
    requires IsName(name)
    ensures Resolved(name) == [name] && Resolved("/" + name) == [name]
    ensures Resolved("") == Resolved("/") == Resolved(".") == Resolved("..") == Resolved("/..") == []
  {
    SegmentsSplit(name, "");
    SegmentsSplit("", name);
    SegmentsSplit("", "");
    SegmentsSplit(".", "");
    SegmentsSplit("..", "");
    SegmentsSplit("", "..");
    assert "" + "/" + name == "/" + name && "" + "/" + "" == "/" && "" + "/" + ".." == "/..";
    assert name[0] != '/' by { assert name[0] in name; }
    assert [] + [name] == [name];
    assert forall keep: nat :: Walk(keep, [], [name]) == Walk(keep, [] + [name], [name][1..]) == [name];
    assert ["", name][1..] == [name] && ["", ".."][1..] == [".."] && ["", ""][1..] == [""];
    assert Segments("/" + name) == ["", name] && Walk(0, [], ["", name]) == Walk(0, [], ["", name][1..]);
  }

  /** The trailing slash of a path leaves one empty segment at the end. */
  function Ending(trailing: bool): seq<string> {
    if trailing then [""] else []
  }

  lemma {:induction false} SegmentsOfSlashed(first: string, names: seq<string>, trailing: bool)
    requires '/' !in first && AreNames(names)
    ensures Segments(first + Slashed(names) + if trailing then "/" else "") == [first] + names + Ending(trailing)
    decreases |names|
  {
    var end := if trailing then "/" else "";
    if names == [] {
      assert first + Slashed(names) + end == if trailing then first + "/" + "" else first;
      SegmentsSplit(first, "");
    } else {
      var rest := names[0] + Slashed(names[1..]) + end;
      assert first + Slashed(names) + end == first + "/" + rest;
      SegmentsSplit(first, rest);
      SegmentsOfSlashed(names[0], names[1..], trailing);
      assert [names[0]] + names[1..] == names;
      assert [first] + (names + Ending(trailing)) == [first] + names + Ending(trailing);
    }
  }

  lemma {:induction false} WalkOfNames(keep: nat, names: seq<string>, more: seq<string>, tail: seq<string>)
    requires AreNames(more) && (tail == [] || tail == [""])
    ensures Walk(keep, names, more + tail) == names + more
    decreases |more|
  {
    if more == [] {
      assert more + tail == tail;
      assert names + more == names;
      if tail != [] { assert tail[1..] == []; }
    } else {
      assert (more + tail)[1..] == more[1..] + tail;
      WalkOfNames(keep, names + [more[0]], more[1..], tail);
      assert names + [more[0]] + more[1..] == names + more;
    }
  }

  lemma StableAbsolute(names: seq<string>, trailing: bool)
    requires AreNames(names)
    ensures var form := Render(true, names, trailing);
            IsAbsolute(form) && Resolved(form) == names && (names != [] ==> (EndsWithSlash(form) <==> trailing))
  {
    var form := Render(true, names, trailing);
    JoinedNames(true, names);
    if names == [] {
      SegmentsSplit("", "");
      assert form == "" + "/" + "";
      assert Walk(0, [], ["", ""]) == Walk(0, [], ["", ""][1..]);
    } else {
      SegmentsOfSlashed("", names, trailing);
      assert form == "" + Slashed(names) + if trailing then "/" else "";
      assert ([""] + names + Ending(trailing))[1..] == names + Ending(trailing);
      WalkOfNames(0, [], names, Ending(trailing));
      assert [] + names == names;
      SlashedEnd(names);
    }
  }

  lemma StableRelative(names: seq<string>, trailing: bool)
    requires AreNames(names) && names != []
    ensures var form := Render(false, names, trailing);
            form != "" && !IsAbsolute(form) && Resolved(form) == names && (EndsWithSlash(form) <==> trailing)
  {
    var form := Render(false, names, trailing);
    JoinedNames(false, names);
    SegmentsOfSlashed(names[0], names[1..], trailing);
    assert form == names[0] + Slashed(names[1..]) + if trailing then "/" else "";
    assert [names[0]] + names[1..] == names;
    WalkOfNames(1, [], names, Ending(trailing));
    assert [] + names == names;
  }

  /** Normalising twice is normalising once, for every path; the names survive, and so
      does whether the path is taken for an absolute one. */
  lemma NormalFormIsStable(path: string)
    ensures NormalForm(NormalForm(path)) == NormalForm(path)
    ensures Resolved(NormalForm(path)) == Resolved(path)
    ensures IsAbsolute(NormalForm(path)) <==> Anchored(path)
  {
    ResolvedAreNames(path);
    if Anchored(path) {
      StableAbsolute(Resolved(path), EndsWithSlash(path));
    } else {
      StableRelative(Resolved(path), EndsWithSlash(path));
    }
  }
}
