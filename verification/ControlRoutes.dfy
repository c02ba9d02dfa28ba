/** Classifying a host application's routes as disjoint from the control routes, and installing the control routes with
    one change to the application's route list. */
module ControlRoutes {
  import opened Wrappers

  const CONTROL := "__control"
  const FAMILY := 4

  // ---------------------------------------------------------------- path templates

  /** One piece of a compiled path template: a character, or a capture with its convertor. */
  datatype Token = Literal(c: char) | Capture(convertor: string)

  /** Which texts each convertor accepts.  Nothing is assumed of it: a capture may accept slashes, or nothing at all. */
  type Convertors = (string, string) -> bool

  predicate IdentStart(c: char) { 'a' <= c <= 'z' || 'A' <= c <= 'Z' || c == '_' }

  predicate IdentPart(c: char) { IdentStart(c) || '0' <= c <= '9' }

  function PartsLength(s: string): (n: nat)
    ensures n <= |s|
  {
    if s != "" && IdentPart(s[0]) then 1 + PartsLength(s[1..]) else 0
  }

  /** The length of the identifier that `s` starts with; zero if it starts with none. */
  function IdentLength(s: string): (n: nat)
    ensures n <= |s|
  {
    if s != "" && IdentStart(s[0]) then 1 + PartsLength(s[1..]) else 0
  }

  /** The capture `{name}` or `{name:convertor}` at the start of `s`: its length and its convertor. */
  function CaptureAt(s: string): (r: Option<(nat, string)>)
    ensures r.Some? ==> s != "" && s[0] == '{' && 0 < r.value.0 <= |s|
  {
    if s == "" || s[0] != '{' then None
    else
      var n := IdentLength(s[1..]);
      var rest := s[1 + n..];
      if n == 0 || rest == "" then None
      else if rest[0] == '}' then Some((n + 2, "str"))
      else if rest[0] != ':' then None
      else
        var m := IdentLength(rest[1..]);
        if m > 0 && 1 + m < |rest| && rest[1 + m] == '}' then Some((n + m + 3, rest[1..1 + m])) else None
  }

  function Compiled(path: string): seq<Token>
    decreases |path|
  {
    if path == "" then []
    else if CaptureAt(path).Some? then
      [Capture(CaptureAt(path).value.1)] + Compiled(path[CaptureAt(path).value.0..])
    else [Literal(path[0])] + Compiled(path[1..])
  }

  ghost predicate Matches(env: Convertors, tokens: seq<Token>, text: string)
    decreases |tokens|
  {
    if tokens == [] then text == ""
    else
      match tokens[0]
      case Literal(c) => text != "" && text[0] == c && Matches(env, tokens[1..], text[1..])
      case Capture(convertor) =>
        exists k | 0 <= k <= |text| :: env(convertor, text[..k]) && Matches(env, tokens[1..], text[k..])
  }

  // ---------------------------------------------------------------- classifying routes

  datatype Kind = ApiRoute | ApiWebSocketRoute | PlainRoute | PlainWebSocketRoute | MountPoint | HostRoute | OtherRoute

  datatype Route = Route(kind: Kind, name: string, verb: string, path: string, marked: bool)

  /** `s` up to its first slash. */
  function Segment(s: string): (r: string)
    ensures '/' !in r && r <= s
    ensures r == s || (|r| < |s| && s[|r|] == '/')
  {
    if s == "" || s[0] == '/' then "" else [s[0]] + Segment(s[1..])
  }

  function LiteralFirstSegment(path: string, mount: bool): Option<string> {
    if path == "" || path[0] != '/' then None
    else
      var first := Segment(path[1..]);
      if first == "" then (if mount then None else Some(""))
      else if '{' in first || '}' in first then None
      else Some(first)
  }

  predicate Disjoint(route: Route) {
    match route.kind
    case ApiRoute | ApiWebSocketRoute | PlainRoute | PlainWebSocketRoute =>
      var first := LiteralFirstSegment(route.path, false);
      first.Some? && first.value != CONTROL
    case MountPoint =>
      var first := LiteralFirstSegment(route.path, true);
      first.Some? && first.value != CONTROL
    case HostRoute => false
    case OtherRoute => false
  }

  /** Whether a route can take a request for `text`.  A mount takes everything below its path.  Of host routes and of
      foreign route types nothing is known, so they may take anything. */
  ghost predicate Takes(env: Convertors, route: Route, text: string) {
    match route.kind
    case MountPoint => Matches(env, Compiled(route.path) + [Literal('/'), Capture("path")], text)
    case HostRoute => true
    case OtherRoute => true
    case _ => Matches(env, Compiled(route.path), text)
  }

  predicate IsControlPath(text: string) {
    text != "" && text[0] == '/' && Segment(text[1..]) == CONTROL
  }

  function Literals(s: string): (r: seq<Token>)
    ensures |r| == |s| && forall i | 0 <= i < |s| :: r[i] == Literal(s[i])
  {
    seq(|s|, i requires 0 <= i < |s| => Literal(s[i]))
  }

  lemma CompiledLiteral(c: char, rest: string)
    requires c != '{'
    ensures Compiled([c] + rest) == [Literal(c)] + Compiled(rest)
  {
    assert ([c] + rest)[1..] == rest;
  }

  lemma {:induction false} LiteralsCompile(s: string, tail: string)
    requires '{' !in s
    ensures Compiled(s + tail) == Literals(s) + Compiled(tail)
    decreases |s|
  {
    hide Compiled, Literals;
    if s == "" {
      assert s + tail == tail;
    } else {
      LiteralsCompile(s[1..], tail);
      CompiledLiteral(s[0], s[1..] + tail);
      assert s + tail == [s[0]] + (s[1..] + tail);
      assert Literals(s) == [Literal(s[0])] + Literals(s[1..]);
      Associative([Literal(s[0])], Literals(s[1..]), Compiled(tail));
    }
  }

  lemma Associative(a: seq<Token>, b: seq<Token>, c: seq<Token>)
    ensures a + (b + c) == a + b + c
  {
  }

  lemma {:induction false} LiteralsMatch(env: Convertors, s: string, tokens: seq<Token>, text: string)
    ensures Matches(env, Literals(s) + tokens, text) <==> s <= text && Matches(env, tokens, text[|s|..])
    decreases |s|
  {
    var all := Literals(s) + tokens;
    if s == "" {
      assert all == tokens && text[0..] == text;
    } else {
      assert all[0] == Literal(s[0]);
      assert all[1..] == Literals(s[1..]) + tokens;
      if text != "" && text[0] == s[0] {
        LiteralsMatch(env, s[1..], tokens, text[1..]);
        assert s == [s[0]] + s[1..] && text == [text[0]] + text[1..];
        assert s[1..] <= text[1..] <==> s <= text;
        if s <= text {
          assert text[1..][|s| - 1..] == text[|s|..];
        }
      }
    }
  }

  lemma {:induction false} SegmentOf(first: string, rest: string)
    requires '/' !in first && (rest == "" || rest[0] == '/')
    ensures Segment(first + rest) == first
    decreases |first|
  {
    if first == "" {
      assert first + rest == rest;
    } else {
      SegmentOf(first[1..], rest);
      assert (first + rest)[1..] == first[1..] + rest;
    }
  }

  /** A template with a literal first segment is that segment, literally, and then the end or a slash. */
  lemma LiteralHead(path: string)
    requires LiteralFirstSegment(path, false).Some?
    ensures var first := LiteralFirstSegment(path, false).value;
            var tail := path[1 + |first|..];
            && '/' !in first && path == "/" + first + tail
            && Compiled(path) == Literals("/" + first) + Compiled(tail)
            && (Compiled(tail) == [] || Compiled(tail)[0] == Literal('/'))
  {
    var first := Segment(path[1..]);
    var head := "/" + first;
    var tail := path[|head|..];
    assert path == head + tail;
    LiteralsCompile(head, tail);
  }

  /** Whatever a template with a literal first segment matches has that first segment. */
  lemma FirstSegmentIsKept(env: Convertors, path: string, more: seq<Token>, text: string)
    requires LiteralFirstSegment(path, false).Some?
    requires more == [] || more[0] == Literal('/')
    requires Matches(env, Compiled(path) + more, text)
    ensures text != "" && text[0] == '/' && Segment(text[1..]) == LiteralFirstSegment(path, false).value
  {
    hide *;
    LiteralHead(path);
    var first := LiteralFirstSegment(path, false).value;
    var head := "/" + first;
    var tokens := Compiled(path[|head|..]) + more;
    assert Compiled(path) + more == Literals(head) + tokens;
    LiteralsMatch(env, head, tokens, text);
    SlashOrNothing(env, tokens, text[|head|..]);
    assert text == head + text[|head|..];
    assert text[1..] == first + text[|head|..];
    SegmentOf(first, text[|head|..]);
  }

  lemma SlashOrNothing(env: Convertors, tokens: seq<Token>, rest: string)
    requires (tokens == [] || tokens[0] == Literal('/')) && Matches(env, tokens, rest)
    ensures rest == "" || rest[0] == '/'
  {
  }

  /** A route classified as disjoint takes no request whose path starts with the control segment. */
  lemma DisjointTakesNoControlPath(env: Convertors, route: Route, text: string)
    requires Disjoint(route) && IsControlPath(text)
    ensures !Takes(env, route, text)
  {
    if Takes(env, route, text) {
      if route.kind == MountPoint {
        FirstSegmentIsKept(env, route.path, [Literal('/'), Capture("path")], text);
      } else {
        assert Compiled(route.path) + [] == Compiled(route.path);
        FirstSegmentIsKept(env, route.path, [], text);
      }
    }
  }

  lemma OwnPathMatches(env: Convertors, path: string, tokens: seq<Token>)
    requires '{' !in path
    ensures Matches(env, Compiled(path), path)
  {
    LiteralsCompile(path, "");
    assert path + "" == path;
    assert Compiled("") == [];
    LiteralsMatch(env, path, [], path);
  }

  /** Routes that are refused although they take no control path: those whose path does not start with a slash, or has a
      closing brace in its first segment; and mounts whose first segment is empty. */
  predicate RefusedOutOfCaution(route: Route) {
    match route.kind
    case MountPoint =>
      route.path != "" && (route.path[0] != '/' || Segment(route.path[1..]) == "" || '}' in Segment(route.path[1..]))
    case HostRoute => false
    case OtherRoute => false
    case _ => route.path == "" || route.path[0] != '/' || '}' in Segment(route.path[1..])
  }

  /** A path up to its second slash. */
  function Head(path: string): string {
    if path == "" then "" else [path[0]] + Segment(path[1..])
  }

  /** A template without a brace up to its second slash is that, literally, and then the end or a slash. */
  lemma HeadIsLiteral(path: string)
    requires '{' !in Head(path)
    ensures var tail := path[|Head(path)|..];
            && path == Head(path) + tail && Compiled(path) == Literals(Head(path)) + Compiled(tail)
            && (Compiled(tail) == [] || Compiled(tail)[0] == Literal('/'))
  {
    var head := Head(path);
    var tail := path[|head|..];
    assert path == head + tail;
    LiteralsCompile(head, tail);
  }

  /** The shortest text a template can match if its captures accept anything. */
  function Filled(tokens: seq<Token>): string {
    if tokens == [] then ""
    else if tokens[0].Literal? then [tokens[0].c] + Filled(tokens[1..])
    else Filled(tokens[1..])
  }

  lemma {:induction false} FilledMatches(env: Convertors, tokens: seq<Token>)
    requires forall convertor, x :: env(convertor, x)
    ensures Matches(env, tokens, Filled(tokens))
    decreases |tokens|
  {
    if tokens != [] {
      FilledMatches(env, tokens[1..]);
      var text := Filled(tokens);
      if tokens[0].Literal? {
        assert text[1..] == Filled(tokens[1..]);
      } else {
        assert text[..0] == "" && text[0..] == text;
        assert env(tokens[0].convertor, text[..0]) && Matches(env, tokens[1..], text[0..]);
      }
    }
  }

  /** What a route's template has after its path. */
  function Below(kind: Kind): seq<Token> {
    if kind == MountPoint then [Literal('/'), Capture("path")] else []
  }

  lemma TakesByTokens(env: Convertors, route: Route, text: string)
    requires route.kind != HostRoute && route.kind != OtherRoute
    ensures Takes(env, route, text) <==> Matches(env, Compiled(route.path) + Below(route.kind), text)
  {
    assert Compiled(route.path) + [] == Compiled(route.path);
  }

  /** A template with a literal head takes exactly the texts that start with it and whose rest the remaining template
      takes, and that rest is empty or starts with a slash. */
  lemma TakesByHead(env: Convertors, route: Route, text: string)
    requires route.kind != HostRoute && route.kind != OtherRoute && '{' !in Head(route.path)
    ensures var head := Head(route.path);
            var tokens := Compiled(route.path[|head|..]) + Below(route.kind);
            && (Takes(env, route, text) <==> head <= text && Matches(env, tokens, text[|head|..]))
            && (Takes(env, route, text) ==> text[|head|..] == "" || text[|head|..][0] == '/')
            && (tokens == [] || tokens[0] == Literal('/'))
  {
    TakesByTokens(env, route, text);
    HeadIsLiteral(route.path);
    var head := Head(route.path);
    var tokens := Compiled(route.path[|head|..]) + Below(route.kind);
    hide Takes, Matches, Compiled, Literals, Head;
    assert Compiled(route.path) + Below(route.kind) == Literals(head) + tokens;
    LiteralsMatch(env, head, tokens, text);
    if Takes(env, route, text) {
      SlashOrNothing(env, tokens, text[|head|..]);
    }
  }

  lemma HeadIsControl(path: string)
    ensures Head(path) == "/" + CONTROL <==>
              path != "" && path[0] == '/' && Segment(path[1..]) == CONTROL
    ensures path != "" ==> ('{' in Head(path) <==> path[0] == '{' || '{' in Segment(path[1..]))
  {
    var control := CONTROL;
    hide CONTROL, Segment;
    var c := "/" + control;
    assert c[0] == '/' && c[1..] == control;
    if path != "" {
      var h := Head(path);
      assert h[0] == path[0] && h[1..] == Segment(path[1..]);
    }
  }

  /** The head of a route that is refused, and not out of caution. */
  lemma RefusedHead(route: Route)
    requires route.kind != HostRoute && route.kind != OtherRoute && '{' !in Head(route.path)
    ensures !Disjoint(route) && !RefusedOutOfCaution(route) <==>
            Head(route.path) == "/" + CONTROL || (route.path == "" && route.kind == MountPoint)
  {
    HeadIsControl(route.path);
    assert '{' !in CONTROL && '}' !in CONTROL && CONTROL != "";
    hide CONTROL, Segment, Head;
  }

  lemma ControlPathByHead(head: string, rest: string)
    requires head != "" && '/' !in head[1..] && (rest == "" || rest[0] == '/')
    ensures IsControlPath(head + rest) <==> head == "/" + CONTROL
  {
    var control := CONTROL;
    SegmentOf(head[1..], rest);
    assert (head + rest)[1..] == head[1..] + rest && (head + rest)[0] == head[0];
    assert IsControlPath(head + rest) <==> head[0] == '/' && head[1..] == control;
    hide *;
    assert head == [head[0]] + head[1..];
    assert ("/" + control)[1..] == control;
    StillControl(control);
  }

  lemma StillControl(control: string)
    requires control == CONTROL
    ensures "/" + control == "/" + CONTROL
  {
  }

  /** If a route has no capture up to its second slash the classification is exact, whatever captures it has after that
      as long as they accept every text: the routes and mounts that take some control path are just those that are
      refused, not counting the ones refused out of caution. */
  lemma LiteralRoutesAreClassifiedExactly(env: Convertors, route: Route)
    requires route.kind != HostRoute && route.kind != OtherRoute && '{' !in Head(route.path)
    requires forall convertor, x :: env(convertor, x)
    ensures (exists text :: IsControlPath(text) && Takes(env, route, text)) <==>
            !Disjoint(route) && !RefusedOutOfCaution(route)
  {
    RefusedHead(route);
    hide *;
    forall text | IsControlPath(text) && Takes(env, route, text)
      ensures !Disjoint(route) && !RefusedOutOfCaution(route)
    {
      TakenMeansControl(env, route, text);
    }
    if !Disjoint(route) && !RefusedOutOfCaution(route) {
      var text := ControlMeansTaken(env, route);
    }
  }

  lemma HeadShape(path: string)
    ensures Head(path) == "" <==> path == ""
    ensures Head(path) != "" ==> '/' !in Head(path)[1..]
  {
    if path != "" {
      assert Head(path)[1..] == Segment(path[1..]);
    }
  }

  lemma TakenMeansControl(env: Convertors, route: Route, text: string)
    requires route.kind != HostRoute && route.kind != OtherRoute && '{' !in Head(route.path)
    requires IsControlPath(text) && Takes(env, route, text)
    ensures Head(route.path) == "/" + CONTROL || (route.path == "" && route.kind == MountPoint)
  {
    if route.path == "" {
      TakesSomething(env, route, text);
    } else {
      hide *;
      HeadShape(route.path);
      TakesByHead(env, route, text);
      var head := Head(route.path);
      assert text == head + text[|head|..];
      ControlPathByHead(head, text[|head|..]);
    }
  }

  lemma ControlMeansTaken(env: Convertors, route: Route) returns (text: string)
    requires route.kind != HostRoute && route.kind != OtherRoute && '{' !in Head(route.path)
    requires Head(route.path) == "/" + CONTROL || (route.path == "" && route.kind == MountPoint)
    requires forall convertor, x :: env(convertor, x)
    ensures IsControlPath(text) && Takes(env, route, text)
  {
    var head := Head(route.path);
    var tokens := Compiled(route.path[|head|..]) + Below(route.kind);
    if route.path == "" {
      text := "/" + CONTROL;
      RootMountTakes(env, text);
      TakesByTokens(env, route, text);
      assert Compiled("") + Below(MountPoint) == Below(MountPoint);
      ControlPathByHead(text, "");
      assert text + "" == text;
    } else {
      var rest := Filled(tokens);
      text := head + rest;
      hide *;
      FilledMatches(env, tokens);
      TakesByHead(env, route, text);
      FilledStart(tokens);
      HeadShape(route.path);
      assert text[|head|..] == rest;
      ControlPathByHead(head, rest);
    }
  }

  lemma FilledStart(tokens: seq<Token>)
    requires tokens == [] || tokens[0] == Literal('/')
    ensures Filled(tokens) == "" || Filled(tokens)[0] == '/'
  {
  }

  lemma TakesSomething(env: Convertors, route: Route, text: string)
    requires route.path == "" && route.kind != HostRoute && route.kind != OtherRoute
    requires IsControlPath(text) && Takes(env, route, text)
    ensures route.kind == MountPoint
  {
  }

  lemma RootMountTakes(env: Convertors, rest: string)
    requires forall convertor, x :: env(convertor, x)
    ensures rest != "" && rest[0] == '/' ==> Matches(env, Below(MountPoint), rest)
  {
    if rest != "" && rest[0] == '/' {
      var after := rest[1..];
      assert after[..|after|] == after && after[|after|..] == "";
      assert [Capture("path")][1..] == [];
      assert env("path", after[..|after|]) && Matches(env, [], after[|after|..]);
      assert Matches(env, [Capture("path")], after);
      assert Below(MountPoint)[1..] == [Capture("path")];
    }
  }

  // ---------------------------------------------------------------- the classification, read off the path

  /** `path` is a slash, a first segment, and then nothing or a slash and more. */
  predicate Splits(path: string, first: string, tail: string) {
    path == "/" + first + tail && '/' !in first && (tail == "" || tail[0] == '/')
  }

  /** A route or mount whose first segment has no braces and is not the control segment; a mount's is not empty
      either. */
  ghost predicate StaysOutside(route: Route) {
    && route.kind != HostRoute && route.kind != OtherRoute
    && exists first, tail ::
         && Splits(route.path, first, tail) && '{' !in first && '}' !in first && first != "__control"
         && (route.kind == MountPoint ==> first != "")
  }

  /** Just those are classified as disjoint, whatever captures come after the first segment. */
  lemma DisjointExactly(route: Route)
    ensures Disjoint(route) <==> StaysOutside(route)
  {
    if Disjoint(route) {
      var first := Segment(route.path[1..]);
      assert Splits(route.path, first, route.path[1 + |first|..]);
    }
    if route.kind != HostRoute && route.kind != OtherRoute {
      forall first, tail | Splits(route.path, first, tail)
        ensures route.path != "" && route.path[0] == '/' && Segment(route.path[1..]) == first
      {
        assert route.path[1..] == first + tail;
        SegmentOf(first, tail);
      }
    }
  }

  // ---------------------------------------------------------------- captures in the first segment

  predicate Identifier(s: string) {
    s != "" && IdentStart(s[0]) && forall i | 0 <= i < |s| :: IdentPart(s[i])
  }

  lemma {:induction false} PartsOf(s: string, rest: string)
    requires (forall i | 0 <= i < |s| :: IdentPart(s[i])) && rest != "" && !IdentPart(rest[0])
    ensures PartsLength(s + rest) == |s|
    decreases |s|
  {
    if s == "" {
      assert s + rest == rest;
    } else {
      PartsOf(s[1..], rest);
      assert (s + rest)[1..] == s[1..] + rest;
    }
  }

  lemma IdentifierOf(s: string, rest: string)
    requires Identifier(s) && rest != "" && !IdentPart(rest[0])
    ensures IdentLength(s + rest) == |s|
  {
    PartsOf(s[1..], rest);
    assert (s + rest)[1..] == s[1..] + rest;
  }

  /** A capture as it is written. */
  function Written(name: string, convertor: Option<string>): string {
    if convertor.None? then "{" + name + "}" else "{" + name + ":" + convertor.value + "}"
  }

  lemma PlainIsCapture(name: string, tail: string)
    requires Identifier(name)
    ensures CaptureAt("{" + name + "}" + tail) == Some((|name| + 2, "str"))
  {
    var s := "{" + name + "}" + tail;
    var after := "}" + tail;
    assert s[1..] == name + after;
    IdentifierOf(name, after);
    assert s[1 + |name|..] == after;
    hide IdentLength, Identifier;
  }

  lemma ConvertedIsCapture(name: string, convertor: string, tail: string)
    requires Identifier(name) && Identifier(convertor)
    ensures CaptureAt("{" + name + ":" + convertor + "}" + tail) == Some((|name| + |convertor| + 3, convertor))
  {
    var s := "{" + name + ":" + convertor + "}" + tail;
    var after := ":" + convertor + "}" + tail;
    assert s[1..] == name + after;
    IdentifierOf(name, after);
    assert s[1 + |name|..] == after;
    assert after[1..] == convertor + ("}" + tail);
    IdentifierOf(convertor, "}" + tail);
    assert after[1..1 + |convertor|] == convertor;
    hide IdentLength, Identifier;
  }

  lemma WrittenIsCapture(name: string, convertor: Option<string>, tail: string)
    requires Identifier(name) && (convertor.Some? ==> Identifier(convertor.value))
    ensures var w := Written(name, convertor);
            CaptureAt(w + tail) == Some((|w|, if convertor.None? then "str" else convertor.value))
  {
    hide CaptureAt, Identifier;
    if convertor.None? {
      PlainIsCapture(name, tail);
    } else {
      ConvertedIsCapture(name, convertor.value, tail);
    }
  }

  lemma CapturedTemplate(name: string, convertor: Option<string>, tail: string)
    requires Identifier(name) && (convertor.Some? ==> Identifier(convertor.value))
    ensures var capture := Capture(if convertor.None? then "str" else convertor.value);
            Compiled("/" + Written(name, convertor) + tail) == [Literal('/')] + ([capture] + Compiled(tail))
  {
    var w := Written(name, convertor);
    WrittenIsCapture(name, convertor, tail);
    hide CaptureAt, Identifier, Written;
    assert (w + tail)[|w|..] == tail;
    CompiledLiteral('/', w + tail);
    assert "/" + w + tail == ['/'] + (w + tail);
  }

  lemma CaptureTakesAll(env: Convertors, convertor: string, tokens: seq<Token>, rest: string, k: nat)
    requires k <= |rest| && env(convertor, rest[..k]) && Matches(env, tokens, rest[k..])
    ensures Matches(env, [Literal('/')] + ([Capture(convertor)] + tokens), "/" + rest)
  {
    var inner := [Capture(convertor)] + tokens;
    assert inner[1..] == tokens;
    assert Matches(env, inner, rest);
    var all := [Literal('/')] + inner;
    assert all[1..] == inner && ("/" + rest)[1..] == rest;
  }

  /** A route or mount that starts with a capture is refused, and rightly: it takes a control path whenever its captures
      accept every text. */
  lemma CapturedFirstSegmentTakesControl(
      env: Convertors, route: Route, name: string, convertor: Option<string>, tail: string) returns (text: string)
    requires route.kind != HostRoute && route.kind != OtherRoute
    requires Identifier(name) && (convertor.Some? ==> Identifier(convertor.value))
    requires route.path == "/" + Written(name, convertor) + tail
    requires forall c, x :: env(c, x)
    ensures !Disjoint(route) && IsControlPath(text) && Takes(env, route, text)
  {
    hide *;
    var capture := if convertor.None? then "str" else convertor.value;
    var tokens := Compiled(tail) + Below(route.kind);
    CaptureIsRefused(route, name, convertor, tail);
    FilledMatches(env, tokens);
    var rest, k := UnderControl(Filled(tokens));
    text := "/" + rest;
    CaptureTakesAll(env, capture, tokens, rest, k);
    CapturedTemplate(name, convertor, tail);
    Associative([Literal('/')], [Capture(capture)] + Compiled(tail), Below(route.kind));
    Associative([Capture(capture)], Compiled(tail), Below(route.kind));
    TakesByTokens(env, route, text);
  }

  lemma UnderControl(below: string) returns (rest: string, k: nat)
    ensures k <= |rest| && rest[k..] == below && IsControlPath("/" + rest)
  {
    rest := CONTROL + ("/" + below);
    k := |CONTROL| + 1;
    assert ("/" + rest)[1..] == rest;
    SegmentOf(CONTROL, "/" + below);
    hide Segment;
  }

  lemma CaptureIsRefused(route: Route, name: string, convertor: Option<string>, tail: string)
    requires route.path == "/" + Written(name, convertor) + tail
    ensures !Disjoint(route)
  {
    assert route.path[1..][0] == '{';
    assert Segment(route.path[1..])[0] == '{';
  }

  // ---------------------------------------------------------------- installing

  datatype Outcome = Installed | AlreadyInstalled | Collision | Invalid

  /** What an installation is given: whether the arguments pass the type and target checks, the four route shapes that
      were built from them, unless building failed, and the canonical family. */
  datatype Request = Request(argumentsValid: bool, built: Option<seq<Route>>, canonical: seq<Route>)

  predicate SameShape(a: Route, b: Route) { a.name == b.name && a.verb == b.verb && a.path == b.path }

  predicate Canonical(routes: seq<Route>, canonical: seq<Route>) {
    |routes| == FAMILY && |canonical| == FAMILY && forall i | 0 <= i < FAMILY :: SameShape(routes[i], canonical[i])
  }

  function Verdict(prior: seq<Route>, q: Request): Outcome {
    if !q.argumentsValid then Invalid
    else if exists i | 0 <= i < |prior| :: prior[i].marked then AlreadyInstalled
    else if exists i | 0 <= i < |prior| :: !Disjoint(prior[i]) then Collision
    else if q.built.None? || !Canonical(q.built.value, q.canonical) then Invalid
    else Installed
  }

  function Marked(routes: seq<Route>): (r: seq<Route>)
    ensures |r| == |routes| && forall i | 0 <= i < |r| :: r[i] == routes[i].(marked := true)
  {
    seq(|routes|, i requires 0 <= i < |routes| => routes[i].(marked := true))
  }

  /** When an attempt succeeds: with valid arguments, on an application in which every route is unmarked and stays
      outside the control segment, and with four built routes that have the canonical names, verbs and paths.  A marked
      route is reported before a collision, and a collision before anything is built. */
  lemma VerdictExactly(prior: seq<Route>, q: Request)
    ensures Verdict(prior, q) == Installed <==>
              && q.argumentsValid
              && (forall i | 0 <= i < |prior| :: !prior[i].marked && StaysOutside(prior[i]))
              && q.built.Some? && |q.built.value| == 4 && |q.canonical| == 4
              && (forall i | 0 <= i < 4 ::
                    && q.built.value[i].name == q.canonical[i].name
                    && q.built.value[i].verb == q.canonical[i].verb
                    && q.built.value[i].path == q.canonical[i].path)
    ensures Verdict(prior, q) == AlreadyInstalled <==>
              q.argumentsValid && exists i | 0 <= i < |prior| :: prior[i].marked
    ensures Verdict(prior, q) == Collision <==>
              && q.argumentsValid
              && (forall i | 0 <= i < |prior| :: !prior[i].marked)
              && exists i | 0 <= i < |prior| :: !StaysOutside(prior[i])
  {
    forall i | 0 <= i < |prior|
      ensures Disjoint(prior[i]) <==> StaysOutside(prior[i])
    {
      DisjointExactly(prior[i]);
    }
    hide Disjoint, StaysOutside;
  }

  function AfterInstall(prior: seq<Route>, q: Request): seq<Route> {
    if Verdict(prior, q) == Installed then prior + Marked(q.built.value) else prior
  }

  /** A route object: only its marker ever changes. */
  class RouteObject {
    const kind: Kind
    const name: string
    const verb: string
    const path: string
    var marked: bool

    constructor (shape: Route)
      ensures View() == shape.(marked := false)
    {
      kind := shape.kind;
      name := shape.name;
      verb := shape.verb;
      path := shape.path;
      marked := false;
    }

    function View(): Route
      reads this
    {
      Route(kind, name, verb, path, marked)
    }
  }

  function Views(routes: seq<RouteObject>): (r: seq<Route>)
    reads set o | o in routes
    ensures |r| == |routes| && forall i | 0 <= i < |r| :: r[i] == routes[i].View()
  {
    seq(|routes|, i requires 0 <= i < |routes| reads set o | o in routes => routes[i].View())
  }

  lemma ViewsAppend(a: seq<RouteObject>, b: seq<RouteObject>)
    ensures Views(a + b) == Views(a) + Views(b)
  {
    hide Views;
  }

  method AnyMarked(routes: seq<RouteObject>) returns (found: bool)
    ensures found <==> exists i | 0 <= i < |routes| :: Views(routes)[i].marked
  {
    for i := 0 to |routes|
      invariant forall j | 0 <= j < i :: !Views(routes)[j].marked
    {
      assert Views(routes)[i] == routes[i].View();
      if routes[i].marked {
        return true;
      }
    }
    found := false;
  }

  method AnyColliding(routes: seq<RouteObject>) returns (found: bool)
    ensures found <==> exists i | 0 <= i < |routes| :: !Disjoint(Views(routes)[i])
  {
    hide Disjoint;
    for i := 0 to |routes|
      invariant forall j | 0 <= j < i :: Disjoint(Views(routes)[j])
    {
      assert Views(routes)[i] == routes[i].View();
      if !Disjoint(routes[i].View()) {
        return true;
      }
    }
    found := false;
  }

  method BuildMarked(shapes: seq<Route>) returns (family: seq<RouteObject>)
    ensures |family| == |shapes| && Views(family) == Marked(shapes)
    ensures forall i | 0 <= i < |family| :: fresh(family[i])
  {
    family := [];
    for i := 0 to |shapes|
      invariant |family| == i
      invariant forall j | 0 <= j < i :: fresh(family[j]) && family[j].View() == shapes[j].(marked := false)
      invariant forall j, k | 0 <= j < k < i :: family[j] != family[k]
    {
      var route := new RouteObject(shapes[i]);
      family := family + [route];
    }
    for i := 0 to |family|
      invariant |family| == |shapes|
      invariant forall j | 0 <= j < |family| :: fresh(family[j])
      invariant forall j, k | 0 <= j < k < |family| :: family[j] != family[k]
      invariant forall j | 0 <= j < |family| :: family[j].View() == shapes[j].(marked := j < i)
    {
      family[i].marked := true;
    }
  }

  lemma InstalledIsCanonical(prior: seq<Route>, q: Request)
    requires Verdict(prior, q) == Installed
    ensures q.built.Some? && |q.built.value| == FAMILY
  {
  }

  class App {
    var routes: seq<RouteObject>

    constructor (initial: seq<RouteObject>)
      ensures routes == initial
    {
      routes := initial;
    }

    /** Everything that can fail, without a change to the application or to any route it has. */
    method Prepare(q: Request) returns (outcome: Outcome, family: seq<RouteObject>)
      ensures outcome == Verdict(Views(routes), q)
      ensures outcome == Installed ==> Views(family) == Marked(q.built.value)
      ensures forall i | 0 <= i < |family| :: fresh(family[i])
    {
      hide Disjoint, Views, Marked;
      family := [];
      if !q.argumentsValid {
        return Invalid, [];
      }
      var installed := AnyMarked(routes);
      if installed {
        return AlreadyInstalled, [];
      }
      var collides := AnyColliding(routes);
      if collides {
        return Collision, [];
      }
      if q.built.None? || !Canonical(q.built.value, q.canonical) {
        return Invalid, [];
      }
      outcome := Installed;
      family := BuildMarked(q.built.value);
    }

    /** The whole installation.  It writes the route list once, on success, and touches no route that was there. */
    method Install(q: Request) returns (outcome: Outcome)
      modifies this
      ensures outcome == Verdict(old(Views(routes)), q)
      ensures Views(routes) == AfterInstall(old(Views(routes)), q)
      ensures outcome != Installed ==> routes == old(routes)
      ensures outcome == Installed ==>
                && |routes| == |old(routes)| + FAMILY && routes[..|old(routes)|] == old(routes)
                && (forall i | |old(routes)| <= i < |routes| :: fresh(routes[i]))
    {
      ghost var views := Views(routes);
      var prior, family;
      prior := routes;
      outcome, family := Prepare(q);
      if outcome == Installed {
        InstalledIsCanonical(views, q);
        hide Disjoint, Verdict, Canonical, Marked, Views;
        routes := prior + family;
        ViewsAppend(prior, family);
        assert Views(prior) == views;
      }
    }
  }

  // ---------------------------------------------------------------- histories of one application

  /** What happens to an application's routes: an installation attempt, or the host adding or removing any route.  A
      marked route that the host adds is one it took out before and puts back. */
  datatype Event = Attempt(q: Request) | Append(route: Route) | Insert(at: nat, route: Route) | Remove(at: nat)

  predicate Possible(routes: seq<Route>, e: Event) {
    match e
    case Attempt(_) => true
    case Append(_) => true
    case Insert(at, _) => at <= |routes|
    case Remove(at) => at < |routes|
  }

  function Step(routes: seq<Route>, e: Event): seq<Route>
    requires Possible(routes, e)
  {
    match e
    case Attempt(q) => AfterInstall(routes, q)
    case Append(route) => routes + [route]
    case Insert(at, route) => routes[..at] + [route] + routes[at..]
    case Remove(at) => routes[..at] + routes[at + 1..]
  }

  predicate History(routes: seq<Route>, events: seq<Event>)
    decreases |events|
  {
    events == [] || (Possible(routes, events[0]) && History(Step(routes, events[0]), events[1..]))
  }

  function Final(routes: seq<Route>, events: seq<Event>): seq<Route>
    requires History(routes, events)
    decreases |events|
  {
    if events == [] then routes else Final(Step(routes, events[0]), events[1..])
  }

  function MarkedCount(routes: seq<Route>): (n: nat)
    ensures n == 0 <==> forall i | 0 <= i < |routes| :: !routes[i].marked
  {
    if routes == [] then 0 else (if routes[0].marked then 1 else 0) + MarkedCount(routes[1..])
  }

  lemma {:induction false} MarkedCountAppend(a: seq<Route>, b: seq<Route>)
    ensures MarkedCount(a + b) == MarkedCount(a) + MarkedCount(b)
    decreases |a|
  {
    if a == [] {
      assert a + b == b;
    } else {
      MarkedCountAppend(a[1..], b);
      assert (a + b)[1..] == a[1..] + b;
    }
  }

  lemma {:induction false} AllMarkedCount(routes: seq<Route>)
    requires forall i | 0 <= i < |routes| :: routes[i].marked
    ensures MarkedCount(routes) == |routes|
    decreases |routes|
  {
    if routes != [] {
      AllMarkedCount(routes[1..]);
    }
  }

  /** An attempt succeeds only on an application with no marked route left, and then leaves exactly four; any other
      attempt leaves the list as it was. */
  lemma AttemptCounts(routes: seq<Route>, q: Request)
    ensures Verdict(routes, q) == Installed ==>
              MarkedCount(routes) == 0 && MarkedCount(AfterInstall(routes, q)) == FAMILY
    ensures Verdict(routes, q) != Installed ==> AfterInstall(routes, q) == routes
    ensures q.argumentsValid ==> (Verdict(routes, q) == AlreadyInstalled <==> MarkedCount(routes) > 0)
  {
    if Verdict(routes, q) == Installed {
      MarkedCountAppend(routes, Marked(q.built.value));
      AllMarkedCount(Marked(q.built.value));
    }
  }

  lemma SpliceCount(a: seq<Route>, b: seq<Route>, c: seq<Route>)
    ensures MarkedCount(a + b + c) == MarkedCount(a) + MarkedCount(b) + MarkedCount(c)
  {
    MarkedCountAppend(a + b, c);
    MarkedCountAppend(a, b);
  }

  lemma CutAt(routes: seq<Route>, at: nat)
    requires at <= |routes|
    ensures routes == routes[..at] + routes[at..]
  {
  }

  lemma CutAround(routes: seq<Route>, at: nat)
    requires at < |routes|
    ensures routes == routes[..at] + [routes[at]] + routes[at + 1..]
  {
  }

  lemma InsertMarks(routes: seq<Route>, at: nat, route: Route)
    requires at <= |routes|
    ensures MarkedCount(routes[..at] + [route] + routes[at..]) == MarkedCount(routes) + PutBack(Append(route))
  {
    assert MarkedCount([route]) == PutBack(Append(route));
    hide *;
    var a, b := routes[..at], routes[at..];
    SpliceCount(a, [route], b);
    MarkedCountAppend(a, b);
    CutAt(routes, at);
  }

  lemma RemoveMarks(routes: seq<Route>, at: nat)
    requires at < |routes|
    ensures MarkedCount(routes[..at] + routes[at + 1..]) <= MarkedCount(routes)
  {
    hide *;
    var a, b := routes[..at], routes[at + 1..];
    MarkedCountAppend(a, b);
    SpliceCount(a, [routes[at]], b);
    CutAround(routes, at);
  }

  /** How many marked routes the host puts back in an event. */
  function PutBack(e: Event): nat {
    if (e.Append? || e.Insert?) && e.route.marked then 1 else 0
  }

  function AllPutBack(events: seq<Event>): nat {
    if events == [] then 0 else PutBack(events[0]) + AllPutBack(events[1..])
  }

  lemma StepMarks(routes: seq<Route>, e: Event)
    requires Possible(routes, e)
    ensures MarkedCount(Step(routes, e)) <= Max(MarkedCount(routes), FAMILY) + PutBack(e)
  {
    hide MarkedCount, AfterInstall, Verdict;
    match e {
      case Attempt(q) =>
        AttemptCounts(routes, q);
      case Append(route) =>
        InsertMarks(routes, |routes|, route);
        assert routes[..|routes|] + [route] + routes[|routes|..] == routes + [route];
      case Insert(at, route) =>
        InsertMarks(routes, at, route);
      case Remove(at) =>
        RemoveMarks(routes, at);
    }
  }

  /** However often the installer is called and whatever the host does, an application never carries more than one
      family and the routes that the host itself put back. */
  lemma {:induction false} NeverTwoFamilies(routes: seq<Route>, events: seq<Event>)
    requires History(routes, events)
    ensures MarkedCount(Final(routes, events)) <= Max(MarkedCount(routes), FAMILY) + AllPutBack(events)
    decreases |events|
  {
    hide Step, Possible, PutBack;
    if events != [] {
      StepMarks(routes, events[0]);
      NeverTwoFamilies(Step(routes, events[0]), events[1..]);
    }
  }

  function Appends(added: seq<Route>): seq<Event> {
    if added == [] then [] else [Append(added[0])] + Appends(added[1..])
  }

  lemma HistoryCons(routes: seq<Route>, e: Event, rest: seq<Event>)
    requires Possible(routes, e) && History(Step(routes, e), rest)
    ensures History(routes, [e] + rest) && Final(routes, [e] + rest) == Final(Step(routes, e), rest)
    ensures AllPutBack([e] + rest) == PutBack(e) + AllPutBack(rest)
  {
    hide Possible, Step, PutBack;
    assert ([e] + rest)[1..] == rest;
  }

  lemma {:induction false} AppendsAdd(routes: seq<Route>, added: seq<Route>)
    requires forall i | 0 <= i < |added| :: added[i].marked
    ensures History(routes, Appends(added)) && Final(routes, Appends(added)) == routes + added
    ensures AllPutBack(Appends(added)) == |added|
    decreases |added|
  {
    if added == [] {
      assert routes + added == routes;
    } else {
      var e := Append(added[0]);
      var next := routes + [added[0]];
      assert Possible(routes, e) && Step(routes, e) == next && PutBack(e) == 1;
      hide Possible, Step, PutBack, History, Final, AllPutBack;
      AppendsAdd(next, added[1..]);
      HistoryCons(routes, e, Appends(added[1..]));
      assert next + added[1..] == routes + added;
    }
  }

  /** The routes put back are the only exception, and any number of them gets by: the installer looks for marked routes
      when it is called, and not afterwards. */
  lemma PuttingBackAdds(q: Request, back: seq<Route>, events: seq<Event>)
    requires Verdict([], q) == Installed && events == [Attempt(q)] + Appends(back)
    requires forall i | 0 <= i < |back| :: back[i].marked
    ensures History([], events) && AllPutBack(events) == |back|
    ensures MarkedCount(Final([], events)) == FAMILY + |back|
  {
    var installed := Step([], Attempt(q));
    AttemptCounts([], q);
    assert MarkedCount(installed) == FAMILY && Possible([], Attempt(q)) && PutBack(Attempt(q)) == 0;
    hide *;
    AppendsAdd(installed, back);
    HistoryCons([], Attempt(q), Appends(back));
    MarkedCountAppend(installed, back);
    AllMarkedCount(back);
  }

  /** No unmarked route that could take a control path stands before a marked one. */
  predicate Guarded(routes: seq<Route>) {
    forall i, j | 0 <= i < j < |routes| && routes[j].marked && !routes[i].marked :: Disjoint(routes[i])
  }

  lemma AttemptGuards(routes: seq<Route>, q: Request)
    requires Guarded(routes)
    ensures Guarded(AfterInstall(routes, q))
  {
    hide Disjoint, Canonical;
    var after := AfterInstall(routes, q);
    if Verdict(routes, q) == Installed {
      forall i, j | 0 <= i < j < |after| && after[j].marked && !after[i].marked
        ensures Disjoint(after[i])
      {
        assert i < |routes| && after[i] == routes[i];
      }
    }
  }

  lemma RemoveGuards(routes: seq<Route>, at: nat)
    requires Guarded(routes) && at < |routes|
    ensures Guarded(routes[..at] + routes[at + 1..])
  {
    hide Disjoint;
    var left := routes[..at] + routes[at + 1..];
    forall i, j | 0 <= i < j < |left| && left[j].marked && !left[i].marked
      ensures Disjoint(left[i])
    {
      assert left[i] == routes[if i < at then i else i + 1];
      assert left[j] == routes[if j < at then j else j + 1];
    }
  }

  lemma AppendGuards(routes: seq<Route>, route: Route)
    requires Guarded(routes) && !route.marked
    ensures Guarded(routes + [route])
  {
    hide Disjoint;
  }

  /** The host adds nothing but routes of its own, and those at the end. */
  predicate AddsOwnAtEnd(e: Event) {
    !e.Insert? && (e.Append? ==> !e.route.marked)
  }

  lemma StepGuards(routes: seq<Route>, e: Event)
    requires Possible(routes, e) && AddsOwnAtEnd(e) && Guarded(routes)
    ensures Guarded(Step(routes, e))
  {
    hide Guarded, AfterInstall;
    match e {
      case Attempt(q) => AttemptGuards(routes, q);
      case Append(route) => AppendGuards(routes, route);
      case Remove(at) => RemoveGuards(routes, at);
    }
  }

  lemma {:induction false} HistoryGuards(routes: seq<Route>, events: seq<Event>)
    requires History(routes, events) && Guarded(routes)
    requires forall k | 0 <= k < |events| :: AddsOwnAtEnd(events[k])
    ensures Guarded(Final(routes, events))
    decreases |events|
  {
    if events != [] {
      StepGuards(routes, events[0]);
      HistoryGuards(Step(routes, events[0]), events[1..]);
    }
  }

  /** As long as the host adds its own routes at the end, no route of the host takes a control path away from an
      installed control route: of the routes that take it, the first is a marked one. */
  lemma ControlPathsReachControlRoutes(
      env: Convertors, routes: seq<Route>, events: seq<Event>, text: string, first: nat, control: nat)
    requires History(routes, events) && MarkedCount(routes) == 0
    requires forall k | 0 <= k < |events| :: AddsOwnAtEnd(events[k])
    requires IsControlPath(text)
    requires var now := Final(routes, events);
             && first <= control < |now|
             && Takes(env, now[first], text) && (forall i | 0 <= i < first :: !Takes(env, now[i], text))
             && Takes(env, now[control], text) && now[control].marked
    ensures Final(routes, events)[first].marked
  {
    var now := Final(routes, events);
    assert Guarded(routes);
    HistoryGuards(routes, events);
    if !now[first].marked {
      assert Disjoint(now[first]);
      DisjointTakesNoControlPath(env, now[first], text);
    }
  }

  /** A host route put in front afterwards can take a control path: the installer looks only at the routes it finds. */
  lemma InsertedInFrontMayShadow(env: Convertors, routes: seq<Route>, control: nat)
    requires control < |routes| && routes[control].marked
    requires routes[control].kind == ApiRoute && IsControlPath(routes[control].path) && '{' !in routes[control].path
    ensures var e := Insert(0, routes[control].(marked := false));
            Possible(routes, e) && Takes(env, Step(routes, e)[0], routes[control].path) && !Step(routes, e)[0].marked
  {
    OwnPathMatches(env, routes[control].path, []);
  }
}
