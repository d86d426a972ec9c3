/** net/http/HttpContext.cpp and net/http/HttpRequest.h: what parseRequest makes of the bytes of a buffer. */
module HttpSyntax {
  import opened Endian
  import opened Sequences
  import opened Wrappers
  import Buffer

  const CR: Byte := 13
  const LF: Byte := 10
  const SPACE: Byte := 32
  const COLON: Byte := 58
  const QUESTION: Byte := 63
  const CRLF: Bytes := [CR, LF]

  datatype Method = Invalid | Get | Post | Head | Put | Delete
  datatype Version = Unknown | Http10 | Http11

  datatype Request = Request(verb: Method, version: Version, path: Bytes, query: Bytes, headers: map<Bytes, Bytes>)

  const EMPTY := Request(Invalid, Unknown, [], [], map[])

  datatype ParseState = ExpectRequestLine | ExpectHeaders | ExpectBody | GotAll

  datatype Parser = Parser(state: ParseState, request: Request)

  const START := Parser(ExpectRequestLine, EMPTY)

  /** std::find: the first index of b in s, or the end. */
  function Find(s: Bytes, b: Byte): (i: nat)
    ensures i <= |s| && (i < |s| ==> s[i] == b) && b !in s[..i]
  {
    if s == [] || s[0] == b then 0
    else
      var i := Find(s[1..], b) + 1;
      assert s[..i] == [s[0]] + s[1..][..i - 1];
      i
  }

  /** isspace in the C locale */
  predicate IsSpace(b: Byte) {
    9 <= b <= 13 || b == 32
  }

  function TrimLeft(s: Bytes): Bytes {
    if s != [] && IsSpace(s[0]) then TrimLeft(s[1..]) else s
  }

  function TrimRight(s: Bytes): Bytes {
    if s != [] && IsSpace(s[|s| - 1]) then TrimRight(s[..|s| - 1]) else s
  }

  function MethodOf(m: Bytes): Method {
    if m == [71, 69, 84] then Get
    else if m == [80, 79, 83, 84] then Post
    else if m == [72, 69, 65, 68] then Head
    else if m == [80, 85, 84] then Put
    else if m == [68, 69, 76, 69, 84, 69] then Delete
    else Invalid
  }

  /** "HTTP/1." */
  const HTTP_1: Bytes := [72, 84, 84, 80, 47, 49, 46]

  /** processRequestLine: whether it succeeds, and the request as it leaves it either way. */
  function ProcessRequestLine(request: Request, line: Bytes): (bool, Request) {
    var space := Find(line, SPACE);
    if space == |line| then (false, request)
    else
      var r1 := request.(verb := MethodOf(line[..space]));
      if r1.verb == Invalid then (false, r1) else ProcessTarget(r1, line[space + 1..])
  }

  /** What follows the method: the target and the version. */
  function ProcessTarget(request: Request, s: Bytes): (bool, Request) {
    var space := Find(s, SPACE);
    if space == |s| then (false, request)
    else
      var question := Find(s[..space], QUESTION);
      var r := if question != space then request.(path := s[..question], query := s[question..space])
               else request.(path := s[..space]);
      var version := s[space + 1..];
      if |version| == 8 && version[..7] == HTTP_1 && version[7] == 49 then (true, r.(version := Http11))
      else if |version| == 8 && version[..7] == HTTP_1 && version[7] == 48 then (true, r.(version := Http10))
      else (false, r)
  }

  /** addHeader */
  function AddHeader(request: Request, line: Bytes, colon: nat): Request
    requires colon < |line|
  {
    request.(headers := request.headers[line[..colon] := TrimRight(TrimLeft(line[colon + 1..]))])
  }

  // ---- parseRequest ----

  /** One turn of the loop: what it leaves, and hasMore. */
  datatype Turned = Turned(ok: bool, parser: Parser, rest: Bytes, more: bool)

  function Turn(p: Parser, input: Bytes): Turned {
    match p.state
    case ExpectRequestLine =>
      (match Buffer.FindCRLF(input)
       case None => Turned(true, p, input, false)
       case Some(i) =>
         Buffer.FindCRLFIsFirst(input);
         var (ok, request) := ProcessRequestLine(p.request, input[..i]);
         if ok then Turned(true, Parser(ExpectHeaders, request), input[i + 2..], true)
         else Turned(false, p.(request := request), input, false))
    case ExpectHeaders =>
      (match Buffer.FindCRLF(input)
       case None => Turned(true, p, input, false)
       case Some(i) =>
         Buffer.FindCRLFIsFirst(input);
         var line := input[..i];
         var colon := Find(line, COLON);
         if colon != |line| then Turned(true, p.(request := AddHeader(p.request, line, colon)), input[i + 2..], true)
         else Turned(true, p.(state := GotAll), input[i + 2..], false))
    case _ => Turned(true, p, input, true)
  }

  predicate CanParse(p: Parser) {
    p.state == ExpectRequestLine || p.state == ExpectHeaders
  }

  datatype Outcome = Outcome(ok: bool, parser: Parser, rest: Bytes)

  /** A whole call of parseRequest. */
  function Parse(p: Parser, input: Bytes): Outcome
    requires CanParse(p)
    decreases |input|
  {
    var t := Turn(p, input);
    if t.more && |t.rest| < |input| then Parse(t.parser, t.rest) else Outcome(t.ok, t.parser, t.rest)
  }

  /** A turn that goes on has consumed a line. */
  lemma TurnConsumes(p: Parser, input: Bytes)
    requires CanParse(p) && Turn(p, input).more
    ensures CanParse(Turn(p, input).parser) && |Turn(p, input).rest| < |input|
  {
    Buffer.FindCRLFIsFirst(input);
  }

  // ---- Termination ----

  /** The loop after n turns, as far as it gets. */
  function Turns(p: Parser, input: Bytes, n: nat): Turned
    decreases n
  {
    if n == 0 then Turned(true, p, input, true)
    else
      var t := Turn(p, input);
      if t.more then Turns(t.parser, t.rest, n - 1) else t
  }

  lemma {:induction false} NeverEnds(p: Parser, input: Bytes, n: nat)
    requires !CanParse(p)
    ensures Turns(p, input, n).more
  {
    if n == 0 {
    } else {
      NeverEnds(p, input, n - 1);
    }
  }

  lemma {:induction false} EndsWithin(p: Parser, input: Bytes)
    requires CanParse(p)
    ensures var t := Turns(p, input, |input| + 1); !t.more && Parse(p, input) == Outcome(t.ok, t.parser, t.rest)
    decreases |input|
  {
    var t := Turn(p, input);
    if !t.more {
    } else {
      TurnConsumes(p, input);
      EndsWithin(t.parser, t.rest);
      MoreTurns(t.parser, t.rest, |t.rest| + 1, |input|);
    }
  }

  /** Once the loop has ended further turns change nothing. */
  lemma {:induction false} MoreTurns(p: Parser, input: Bytes, n: nat, m: nat)
    requires n <= m && !Turns(p, input, n).more
    ensures Turns(p, input, m) == Turns(p, input, n)
    decreases n
  {
    hide Turn;
    var t := Turn(p, input);
    if n == 0 || !t.more {
    } else {
      MoreTurns(t.parser, t.rest, n - 1, m - 1);
    }
  }

  /** The loop ends if and only if it is entered in a state in which a line is expected. */
  lemma ParseTerminates(p: Parser, input: Bytes)
    ensures CanParse(p) <==> exists n :: !Turns(p, input, n).more
  {
    if CanParse(p) {
      EndsWithin(p, input);
    } else {
      forall n: nat
        ensures Turns(p, input, n).more
      {
        NeverEnds(p, input, n);
      }
    }
  }

  // ---- Chunks ----

  lemma {:induction false} FindCRLFInMore(a: Bytes, b: Bytes)
    requires Buffer.FindCRLF(a).Some?
    ensures Buffer.FindCRLF(a + b) == Buffer.FindCRLF(a)
  {
    if a[0] == 13 && a[1] == 10 {
    } else {
      FindCRLFInMore(a[1..], b);
      assert (a + b)[1..] == a[1..] + b;
    }
  }

  /** A turn that gets a whole line does the same when more bytes follow it. */
  lemma TurnWithMore(p: Parser, a: Bytes, b: Bytes)
    requires CanParse(p) && Buffer.FindCRLF(a).Some?
    ensures var t := Turn(p, a); Turn(p, a + b) == t.(rest := t.rest + b)
  {
    hide ProcessRequestLine, AddHeader, Buffer.FindCRLF;
    FindCRLFInMore(a, b);
    Buffer.FindCRLFIsFirst(a);
    var i := Buffer.FindCRLF(a).value;
    assert (a + b)[..i] == a[..i] && (a + b)[i + 2..] == a[i + 2..] + b;
  }

  /** The call is over for good: it failed, or got the whole request. */
  predicate Over(o: Outcome) {
    !o.ok || o.parser.state == GotAll
  }

  /** Parsing a and then what is left with b behind it is parsing a + b. */
  lemma {:induction false} ParseInTwo(p: Parser, a: Bytes, b: Bytes)
    requires CanParse(p)
    ensures var o := Parse(p, a);
      if Over(o) then Parse(p, a + b) == o.(rest := o.rest + b)
      else CanParse(o.parser) && Parse(p, a + b) == Parse(o.parser, o.rest + b)
    decreases |a|
  {
    if Buffer.FindCRLF(a).None? {
    } else {
      TurnWithMore(p, a, b);
      var t := Turn(p, a);
      if t.more {
        TurnConsumes(p, a);
        ParseInTwo(t.parser, t.rest, b);
      }
    }
  }

  /** parseRequest called after the arrival of each piece, up to the first failure or the end of the request; the
      pieces that come later stay unread. */
  function ParsePieces(p: Parser, unread: Bytes, pieces: seq<Bytes>): Outcome
    requires CanParse(p)
    decreases |pieces|
  {
    if pieces == [] then Outcome(true, p, unread)
    else
      var o := Parse(p, unread + pieces[0]);
      ParseInTwo(p, unread + pieces[0], []);
      if Over(o) then o.(rest := o.rest + Concat(pieces[1..])) else ParsePieces(o.parser, o.rest, pieces[1..])
  }

  /** Parsing does not depend on how the bytes are cut into pieces. */
  lemma {:induction false} ChunkIndependence(p: Parser, pieces: seq<Bytes>)
    requires CanParse(p) && pieces != []
    ensures ParsePieces(p, [], pieces) == Parse(p, Concat(pieces))
  {
    PiecesBehind(p, [], pieces);
    assert [] + Concat(pieces) == Concat(pieces);
  }

  lemma {:induction false} PiecesBehind(p: Parser, unread: Bytes, pieces: seq<Bytes>)
    requires CanParse(p) && pieces != []
    ensures ParsePieces(p, unread, pieces) == Parse(p, unread + Concat(pieces))
    decreases |pieces|
  {
    var first, rest := unread + pieces[0], Concat(pieces[1..]);
    assert pieces == [pieces[0]] + pieces[1..];
    ConcatCons(pieces[0], pieces[1..]);
    assert unread + Concat(pieces) == first + rest;
    ParseInTwo(p, first, rest);
    var o := Parse(p, first);
    if !Over(o) {
      if |pieces| > 1 {
        PiecesBehind(o.parser, o.rest, pieces[1..]);
      } else {
        assert first + rest == first && o.rest + rest == o.rest;
      }
    }
  }

  // ---- The request line ----

  function MethodString(m: Method): Bytes
    requires m != Invalid
  {
    match m
    case Get => [71, 69, 84]
    case Post => [80, 79, 83, 84]
    case Head => [72, 69, 65, 68]
    case Put => [80, 85, 84]
    case Delete => [68, 69, 76, 69, 84, 69]
  }

  function VersionString(v: Version): Bytes
    requires v != Unknown
  {
    HTTP_1 + [if v == Http11 then 49 else 48]
  }

  /** A request line as in section 3.1.1 of RFC 7230; its request-target is the path followed by the query. */
  function RequestLine(r: Request): Bytes
    requires r.verb != Invalid && r.version != Unknown
  {
    MethodString(r.verb) + [SPACE] + (r.path + r.query) + [SPACE] + VersionString(r.version)
  }

  /** The target splits at its first question mark, and has no space. */
  predicate TargetOk(r: Request) {
    SPACE !in r.path && SPACE !in r.query && QUESTION !in r.path && (r.query == [] || r.query[0] == QUESTION)
  }

  predicate LineOk(r: Request) {
    r.verb != Invalid && r.version != Unknown && TargetOk(r)
  }

  lemma {:induction false} FindBehind(a: Bytes, b: Byte, c: Bytes)
    requires b !in a
    ensures Find(a + [b] + c, b) == |a|
  {
    if a == [] {
      assert a + [b] + c == [b] + c;
    } else {
      assert (a + [b] + c)[1..] == a[1..] + [b] + c;
      FindBehind(a[1..], b, c);
    }
  }

  lemma {:induction false} FindNone(s: Bytes, b: Byte)
    requires b !in s
    ensures Find(s, b) == |s|
  {
    if s == [] {
    } else {
      FindNone(s[1..], b);
    }
  }

  lemma MethodsReadBack(m: Method)
    requires m != Invalid
    ensures MethodOf(MethodString(m)) == m && SPACE !in MethodString(m)
  {
  }

  lemma MethodsAreKnown(s: Bytes)
    ensures MethodOf(s) != Invalid ==> s == MethodString(MethodOf(s))
  {
  }

  lemma TargetParses(request: Request, r: Request)
    requires LineOk(r) && request.query == []
    ensures var (ok, r') := ProcessTarget(request, r.path + r.query + [SPACE] + VersionString(r.version));
            ok && r' == request.(path := r.path, query := r.query, version := r.version)
  {
    var target, version := r.path + r.query, VersionString(r.version);
    var s := target + [SPACE] + version;
    FindBehind(target, SPACE, version);
    assert s[..|target|] == target && s[|target| + 1..] == version;
    assert version[..7] == HTTP_1;
    if r.query == [] {
      assert target == r.path;
      FindNone(target, QUESTION);
    } else {
      assert target == r.path + [QUESTION] + r.query[1..];
      FindBehind(r.path, QUESTION, r.query[1..]);
      assert s[..|r.path|] == r.path && s[|r.path|..|target|] == r.query;
    }
  }

  lemma RequestLineParses(request: Request, r: Request)
    requires LineOk(r) && request.query == []
    ensures ProcessRequestLine(request, RequestLine(r)) ==
            (true, request.(verb := r.verb, path := r.path, query := r.query, version := r.version))
  {
    var name, rest := MethodString(r.verb), r.path + r.query + [SPACE] + VersionString(r.version);
    MethodsReadBack(r.verb);
    FindBehind(name, SPACE, rest);
    assert RequestLine(r) == name + [SPACE] + rest;
    assert RequestLine(r)[..|name|] == name && RequestLine(r)[|name| + 1..] == rest;
    TargetParses(request.(verb := r.verb), r);
  }

  lemma CutLacks(s: Bytes, b: Byte, i: nat)
    requires b !in s && i <= |s|
    ensures b !in s[..i] && b !in s[i..] && s == s[..i] + s[i..]
  {
  }

  /** Cutting a target at its first question mark. */
  lemma CutAtQuestion(target: Bytes)
    requires SPACE !in target
    ensures var i := Find(target, QUESTION);
            && target == target[..i] + target[i..] && SPACE !in target[..i] && SPACE !in target[i..]
            && QUESTION !in target[..i] && (i < |target| ==> target[i..][0] == QUESTION)
  {
    hide Find;
    CutLacks(target, SPACE, Find(target, QUESTION));
  }

  lemma ParsedTarget(request: Request, s: Bytes)
    requires request.query == []
    ensures var (ok, r) := ProcessTarget(request, s);
            && r.verb == request.verb
            && (ok ==> r.version != Unknown && TargetOk(r) && s == r.path + r.query + [SPACE] + VersionString(r.version))
  {
    hide Find;
    var (ok, r) := ProcessTarget(request, s);
    if ok {
      var space := Find(s, SPACE);
      var version := s[space + 1..];
      assert s == s[..space] + [SPACE] + version;
      assert version == version[..7] + [version[7]];
      CutAtQuestion(s[..space]);
      var question := Find(s[..space], QUESTION);
      assert s[..space][..question] == s[..question] && s[..space][question..] == s[question..space];
      if question == space {
        assert s[..space] + [] == s[..space];
      }
    }
  }

  lemma ParsedRequestLine(request: Request, line: Bytes)
    requires request.query == []
    ensures var (ok, r) := ProcessRequestLine(request, line); ok ==> LineOk(r) && line == RequestLine(r)
  {
    hide Find, ProcessTarget, TargetOk, MethodString, VersionString, MethodOf;
    var space := Find(line, SPACE);
    if space < |line| {
      var name, rest := line[..space], line[space + 1..];
      MethodsAreKnown(name);
      ParsedTarget(request.(verb := MethodOf(name)), rest);
      assert line == name + [SPACE] + rest;
      var (ok, r) := ProcessTarget(request.(verb := MethodOf(name)), rest);
      if ok && MethodOf(name) != Invalid {
        assert name + [SPACE] + (r.path + r.query + [SPACE] + VersionString(r.version)) == RequestLine(r);
      }
    }
  }

  /** processRequestLine succeeds on exactly the request lines that the grammar gives for its methods and versions,
      and then path and query together are the request target. */
  lemma RequestLineExact(request: Request, line: Bytes)
    requires request.query == []
    ensures var (ok, r) := ProcessRequestLine(request, line); ok ==> LineOk(r) && line == RequestLine(r)
    ensures forall r :: LineOk(r) && line == RequestLine(r) ==> ProcessRequestLine(request, line).0
  {
    hide ProcessRequestLine, TargetOk, RequestLine;
    ParsedRequestLine(request, line);
    forall r | LineOk(r) && line == RequestLine(r)
      ensures ProcessRequestLine(request, line).0
    {
      RequestLineParses(request, r);
    }
  }

  // ---- Headers ----

  /** Tab, line feed, vertical tab, form feed, carriage return and space. */
  const WHITE: set<int> := {9, 10, 11, 12, 13, 32}

  predicate AllSpace(s: Bytes) {
    forall i :: 0 <= i < |s| ==> s[i] in WHITE
  }

  predicate Trimmed(s: Bytes) {
    s != [] ==> s[0] !in WHITE && s[|s| - 1] !in WHITE
  }

  /** The optional white space of section 3.2.3 of RFC 7230: spaces and tabs. */
  predicate OptionalSpace(s: Bytes) {
    forall i :: 0 <= i < |s| ==> s[i] == 32 || s[i] == 9
  }

  lemma {:induction false} TrimLeftSplits(s: Bytes) returns (lead: Bytes)
    ensures s == lead + TrimLeft(s) && AllSpace(lead) && (TrimLeft(s) != [] ==> TrimLeft(s)[0] !in WHITE)
  {
    if s != [] && IsSpace(s[0]) {
      lead := TrimLeftSplits(s[1..]);
      lead := [s[0]] + lead;
    } else {
      lead := [];
    }
  }

  lemma {:induction false} TrimRightSplits(s: Bytes) returns (trail: Bytes)
    ensures s == TrimRight(s) + trail && AllSpace(trail) && (TrimRight(s) != [] ==> TrimRight(s)[|TrimRight(s)| - 1] !in WHITE)
  {
    if s != [] && IsSpace(s[|s| - 1]) {
      trail := TrimRightSplits(s[..|s| - 1]);
      trail := trail + [s[|s| - 1]];
    } else {
      trail := [];
    }
  }

  /** addHeader stores the bytes behind the colon without the white space around them, and no less: of the six bytes that
      are white space in the C locale none is left at the ends, and nothing else is removed. */
  lemma ValueIsTrimmed(s: Bytes) returns (lead: Bytes, trail: Bytes)
    ensures var value := TrimRight(TrimLeft(s));
            s == lead + value + trail && AllSpace(lead) && AllSpace(trail) && Trimmed(value)
  {
    lead := TrimLeftSplits(s);
    trail := TrimRightSplits(TrimLeft(s));
    var value := TrimRight(TrimLeft(s));
    assert value != [] ==> value[0] == TrimLeft(s)[0];
  }

  /** A header field with the optional white space that a sender may put before and behind the value. */
  datatype Field = Field(name: Bytes, lead: Bytes, value: Bytes, trail: Bytes)

  function HeaderLine(field: Field): Bytes {
    field.name + [COLON] + (field.lead + field.value + field.trail)
  }

  /** A header field as in section 3.2 of RFC 7230: no colon in the name, spaces and tabs around the value, no white space
      at the ends of the value, no CR. */
  predicate FieldOk(field: Field) {
    && COLON !in field.name && CR !in field.name && CR !in field.value
    && OptionalSpace(field.lead) && Trimmed(field.value) && OptionalSpace(field.trail)
  }

  lemma {:induction false} TrimsLead(lead: Bytes, s: Bytes)
    requires AllSpace(lead)
    ensures TrimLeft(lead + s) == TrimLeft(s)
    decreases |lead|
  {
    if lead == [] {
      assert lead + s == s;
    } else {
      assert (lead + s)[1..] == lead[1..] + s;
      TrimsLead(lead[1..], s);
    }
  }

  lemma {:induction false} TrimsTrail(s: Bytes, trail: Bytes)
    requires AllSpace(trail)
    ensures TrimRight(s + trail) == TrimRight(s)
    decreases |trail|
  {
    if trail == [] {
      assert s + trail == s;
    } else {
      var init := trail[..|trail| - 1];
      assert (s + trail)[..|s + trail| - 1] == s + init;
      TrimsTrail(s, init);
    }
  }

  /** The value comes back from whatever white space is put around it. */
  lemma TrimmedValue(lead: Bytes, value: Bytes, trail: Bytes)
    requires AllSpace(lead) && Trimmed(value) && AllSpace(trail)
    ensures TrimRight(TrimLeft(lead + value + trail)) == value
  {
    assert lead + value + trail == lead + (value + trail);
    TrimsLead(lead, value + trail);
    if value == [] {
      TrimsLead(trail, []);
      assert value + trail == trail + [];
    } else {
      TrimsTrail(value, trail);
    }
  }

  /** What headers_ becomes; of two fields with one name the later stays. */
  function HeadersOf(headers: map<Bytes, Bytes>, fields: seq<Field>): map<Bytes, Bytes>
    decreases |fields|
  {
    if fields == [] then headers else HeadersOf(headers[fields[0].name := fields[0].value], fields[1..])
  }

  function RenderHeaders(fields: seq<Field>): Bytes {
    if fields == [] then CRLF else HeaderLine(fields[0]) + CRLF + RenderHeaders(fields[1..])
  }

  lemma HeaderLineParses(request: Request, field: Field)
    requires FieldOk(field)
    ensures var line := HeaderLine(field);
            && Find(line, COLON) == |field.name| < |line|
            && AddHeader(request, line, |field.name|) == request.(headers := request.headers[field.name := field.value])
  {
    var Field(name, lead, value, trail) := field;
    var line := HeaderLine(field);
    FindBehind(name, COLON, lead + value + trail);
    assert line[..|name|] == name && line[|name| + 1..] == lead + value + trail;
    assert AllSpace(lead) && AllSpace(trail);
    TrimmedValue(lead, value, trail);
  }

  lemma {:induction false} FindsLine(line: Bytes, more: Bytes)
    requires CR !in line
    ensures Buffer.FindCRLF(line + CRLF + more) == Some(|line|)
  {
    var s := line + CRLF + more;
    if line == [] {
    } else {
      assert s[1..] == line[1..] + CRLF + more;
      FindsLine(line[1..], more);
    }
  }

  lemma {:induction false} HeadersParse(request: Request, fields: seq<Field>, more: Bytes)
    requires forall i :: 0 <= i < |fields| ==> FieldOk(fields[i])
    ensures Parse(Parser(ExpectHeaders, request), RenderHeaders(fields) + more) ==
            Outcome(true, Parser(GotAll, request.(headers := HeadersOf(request.headers, fields))), more)
    decreases |fields|
  {
    var p, s := Parser(ExpectHeaders, request), RenderHeaders(fields) + more;
    if fields == [] {
      FindsLine([], more);
      assert [] + CRLF + more == s && s[..0] == [] && s[2..] == more;
    } else {
      var line, rest := HeaderLine(fields[0]), RenderHeaders(fields[1..]) + more;
      assert CR !in line;
      assert s == line + CRLF + rest;
      FindsLine(line, rest);
      assert s[..|line|] == line && s[|line| + 2..] == rest;
      HeaderLineParses(request, fields[0]);
      HeadersParse(request.(headers := request.headers[fields[0].name := fields[0].value]), fields[1..], more);
    }
  }

  /** A well-formed request parses back to itself, whatever bytes follow it, and leaves those unread. */
  lemma RenderThenParse(r: Request, fields: seq<Field>, more: Bytes)
    requires LineOk(r) && CR !in r.path && CR !in r.query
    requires forall i :: 0 <= i < |fields| ==> FieldOk(fields[i])
    ensures Parse(START, RequestLine(r) + CRLF + RenderHeaders(fields) + more) ==
            Outcome(true, Parser(GotAll, r.(headers := HeadersOf(map[], fields))), more)
  {
    var line, rest := RequestLine(r), RenderHeaders(fields) + more;
    var s := line + CRLF + RenderHeaders(fields) + more;
    assert s == line + CRLF + rest;
    assert CR !in line;
    FindsLine(line, rest);
    assert s[..|line|] == line && s[|line| + 2..] == rest;
    RequestLineParses(EMPTY, r);
    hide ProcessRequestLine, RequestLine;
    HeadersParse(EMPTY.(verb := r.verb, path := r.path, query := r.query, version := r.version), fields, more);
  }

  const PUT_LINE: Bytes := [80, 85, 84, 32, 47, 97, 63, 98, 32, 72, 84, 84, 80, 47, 49, 46, 48]
  const H_LINE: Bytes := [72, 58, 9, 32, 120, 32, 121, 32]
  const PUT_REQUEST := Request(Put, Http10, [47, 97], [63, 98], map[])
  const H_FIELD := Field([72], [9, 32], [120, 32, 121], [32])

  lemma LiteralLine()
    ensures LineOk(PUT_REQUEST) && RequestLine(PUT_REQUEST) == PUT_LINE
  {
  }

  lemma LiteralField()
    ensures FieldOk(H_FIELD) && HeaderLine(H_FIELD) == H_LINE
  {
  }

  lemma LiteralHeaders()
    ensures RenderHeaders([H_FIELD]) == H_LINE + [13, 10] + [13, 10]
    ensures HeadersOf(map[], [H_FIELD]) == map[[72] := [120, 32, 121]]
  {
    LiteralField();
    assert [H_FIELD][1..] == [] && RenderHeaders([]) == [13, 10];
    assert HeadersOf(map[], [H_FIELD]) == HeadersOf(map[[72] := [120, 32, 121]], []);
  }

  /** In ASCII: "PUT /a?b HTTP/1.0"; "H:", a tab and a space, "x y", a space; the empty line; and a "Z" behind it. */
  lemma LiteralRequest()
    ensures Parse(START, PUT_LINE + [13, 10] + (H_LINE + [13, 10] + [13, 10] + [90])) ==
            Outcome(true, Parser(GotAll, PUT_REQUEST.(headers := map[[72] := [120, 32, 121]])), [90])
  {
    hide Parse, RequestLine, RenderHeaders, HeaderLine, HeadersOf, LineOk, FieldOk;
    LiteralLine();
    LiteralField();
    LiteralHeaders();
    assert CR !in PUT_REQUEST.path && CR !in PUT_REQUEST.query;
    RenderThenParse(PUT_REQUEST, [H_FIELD], [90]);
    assert PUT_LINE + [13, 10] + (H_LINE + [13, 10] + [13, 10]) + [90] == PUT_LINE + [13, 10] + (H_LINE + [13, 10] + [13, 10] + [90]);
  }

  /** Where the code is laxer than the grammar: any line without a colon ends the headers, not only an empty one. */
  lemma LineWithoutColonEndsHeaders(request: Request, line: Bytes, more: Bytes)
    requires CR !in line && COLON !in line
    ensures Parse(Parser(ExpectHeaders, request), line + CRLF + more) == Outcome(true, Parser(GotAll, request), more)
  {
    var s := line + CRLF + more;
    FindsLine(line, more);
    FindNone(line, COLON);
    assert s[..|line|] == line && s[|line| + 2..] == more;
  }

  // ---- After a failure ----

  /** The assertion of setMethod, if this call gets to it at once. */
  predicate SetMethodOk(p: Parser, input: Bytes) {
    match Buffer.FindCRLF(input)
    case None => true
    case Some(i) =>
      Buffer.FindCRLFIsFirst(input);
      p.state == ExpectRequestLine && Find(input[..i], SPACE) != i ==> p.request.verb == Invalid
  }

  /** A failed call keeps its line in the buffer. The next call trips the assertion of setMethod if and only if the
      failed one got as far as a known method. */
  lemma CallAfterFailure(request: Request, input: Bytes, more: Bytes)
    requires request.verb == Invalid
    requires !Parse(Parser(ExpectRequestLine, request), input).ok
    ensures var o := Parse(Parser(ExpectRequestLine, request), input);
            SetMethodOk(o.parser, o.rest + more) <==> o.parser.request.verb == Invalid
  {
    Buffer.FindCRLFIsFirst(input);
    var i := Buffer.FindCRLF(input).value;
    var (ok, r) := ProcessRequestLine(request, input[..i]);
    if ok {
      HeadersNeverFail(Parser(ExpectHeaders, r), input[i + 2..]);
    }
    FindCRLFInMore(input, more);
    assert (input + more)[..i] == input[..i];
  }

  /** Such an input: the line "GET " fails for want of a version, after the method has been set. */
  lemma GetAndNothingElse()
    ensures var o := Parse(START, [71, 69, 84, 32] + CRLF);
            !o.ok && o.parser.request.verb == Get && o.parser.state == ExpectRequestLine && !SetMethodOk(o.parser, o.rest)
  {
    var line := [71, 69, 84, 32];
    FindsLine(line, []);
    assert line + CRLF + [] == line + CRLF && (line + CRLF)[..4] == line;
    FindBehind([71, 69, 84], SPACE, []);
    assert line == [71, 69, 84] + [SPACE] + [] && line[..3] == [71, 69, 84] && line[4..] == [];
  }

  lemma {:induction false} HeadersNeverFail(p: Parser, input: Bytes)
    requires p.state == ExpectHeaders
    ensures Parse(p, input).ok
    decreases |input|
  {
    var t := Turn(p, input);
    if !t.more {
    } else {
      TurnConsumes(p, input);
      HeadersNeverFail(t.parser, t.rest);
    }
  }
}
