/** net/http/HttpRequest.h and net/http/HttpContext.cpp as classes over a Buffer; HttpSyntax says what they parse. */
module Http {
  import opened Endian
  import opened Wrappers
  import opened S = HttpSyntax
  import B = Buffer

  /** The value addHeader stores, as a part of the line. */
  lemma TrimmedSlice(line: Bytes, colon: nat)
    requires colon < |line|
    ensures exists start, end ::
              && colon < start <= end <= |line| && TrimRight(TrimLeft(line[colon + 1..])) == line[start..end]
              && AllSpace(line[colon + 1..start]) && Trimmed(line[start..end]) && AllSpace(line[end..])
  {
    var rest := line[colon + 1..];
    var value := TrimRight(TrimLeft(rest));
    var lead, trail := ValueIsTrimmed(rest);
    hide TrimLeft, TrimRight, AllSpace, Trimmed;
    var start := colon + 1 + |lead|;
    var end := start + |value|;
    assert line == line[..colon + 1] + rest;
    assert line[colon + 1..start] == lead && line[start..end] == value && line[end..] == trail;
  }

  class HttpRequest {
    var verb: Method
    var version: Version
    var path: Bytes
    var query: Bytes
    var headers: map<Bytes, Bytes>

    function View(): Request
      reads this
    {
      Request(verb, version, path, query, headers)
    }

    constructor ()
      ensures View() == EMPTY
    {
      verb, version, path, query, headers := Invalid, Unknown, [], [], map[];
    }

    method SetVersion(v: Version)
      modifies this`version
      ensures View() == old(View()).(version := v)
    {
      version := v;
    }

    /** Knows exactly the five methods by their names. */
    method SetMethod(m: Bytes) returns (known: bool)
      requires verb == Invalid
      modifies this`verb
      ensures known <==> verb != Invalid
      ensures known ==> m == MethodString(verb)
      ensures !known ==> forall v: Method :: v != Invalid ==> m != MethodString(v)
      ensures verb == MethodOf(m)
    {
      verb := MethodOf(m);
      return verb != Invalid;
    }

    method SetPath(p: Bytes)
      modifies this`path
      ensures View() == old(View()).(path := p)
    {
      path := p;
    }

    method SetQuery(q: Bytes)
      modifies this`query
      ensures View() == old(View()).(query := q)
    {
      query := q;
    }

    method AddHeader(line: Bytes, colon: nat)
      requires colon < |line|
      modifies this`headers
      ensures View() == S.AddHeader(old(View()), line, colon)
      ensures exists start, end ::
                && colon < start <= end <= |line| && headers == old(headers)[line[..colon] := line[start..end]]
                && AllSpace(line[colon + 1..start]) && Trimmed(line[start..end]) && AllSpace(line[end..])
    {
      var field := line[..colon];
      var start := colon + 1;
      while start < |line| && IsSpace(line[start])
        invariant colon + 1 <= start <= |line|
        invariant TrimLeft(line[start..]) == TrimLeft(line[colon + 1..])
      {
        assert line[start..][1..] == line[start + 1..];
        start := start + 1;
      }
      var value := line[start..];
      while value != [] && IsSpace(value[|value| - 1])
        invariant TrimRight(value) == TrimRight(TrimLeft(line[colon + 1..]))
      {
        value := value[..|value| - 1];
      }
      headers := headers[field := value];
      TrimmedSlice(line, colon);
    }

    method Clear()
      modifies this
      ensures View() == EMPTY
    {
      verb, version, path, query, headers := Invalid, Unknown, [], [], map[];
    }
  }

  class HttpContext {
    var state: ParseState
    const request: HttpRequest

    function View(): Parser
      reads this, request
    {
      Parser(state, request.View())
    }

    constructor ()
      ensures View() == START && fresh(request)
    {
      state := ExpectRequestLine;
      request := new HttpRequest();
    }

    method Reset()
      modifies this`state, request
      ensures View() == START
    {
      state := ExpectRequestLine;
      request.Clear();
    }

    method ProcessRequestLine(line: Bytes) returns (succeed: bool)
      requires Find(line, SPACE) != |line| ==> request.verb == Invalid
      modifies request
      ensures (succeed, request.View()) == S.ProcessRequestLine(old(request.View()), line)
    {
      succeed := false;
      var space := Find(line, SPACE);
      if space != |line| {
        var known := request.SetMethod(line[..space]);
        if known {
          succeed := ProcessTarget(line[space + 1..]);
        }
      }
    }

    /** The rest of processRequestLine, behind the first space. */
    method ProcessTarget(rest: Bytes) returns (succeed: bool)
      modifies request
      ensures (succeed, request.View()) == S.ProcessTarget(old(request.View()), rest)
    {
      succeed := false;
      var space := Find(rest, SPACE);
      if space != |rest| {
        var question := Find(rest[..space], QUESTION);
        if question != space {
          request.SetPath(rest[..question]);
          request.SetQuery(rest[question..space]);
        } else {
          request.SetPath(rest[..space]);
        }
        var version := rest[space + 1..];
        succeed := |version| == 8 && version[..7] == HTTP_1;
        if succeed {
          if version[7] == 49 {
            request.SetVersion(Http11);
          } else if version[7] == 48 {
            request.SetVersion(Http10);
          } else {
            succeed := false;
          }
        }
      }
    }

    /** parseRequest: takes from the buffer what Parse takes from its bytes, and terminates. */
    method ParseRequest(buf: B.Buffer) returns (ok: bool)
      requires buf.Valid() && CanParse(View()) && SetMethodOk(View(), buf.Readable())
      modifies this`state, request, buf`readerIndex, buf`writerIndex
      ensures buf.Valid()
      ensures Outcome(ok, View(), buf.Readable()) == Parse(old(View()), old(buf.Readable()))
    {
      ok := true;
      var hasMore := true;
      while hasMore
        invariant buf.Valid() && (hasMore ==> ok && CanParse(View()) && SetMethodOk(View(), buf.Readable()))
        invariant if hasMore then Parse(View(), buf.Readable()) == Parse(old(View()), old(buf.Readable()))
                  else Outcome(ok, View(), buf.Readable()) == Parse(old(View()), old(buf.Readable()))
        decreases hasMore, |buf.Readable()|
      {
        ok, hasMore := TakeLine(buf);
      }
    }

    /** One turn of the loop. */
    method TakeLine(buf: B.Buffer) returns (ok: bool, hasMore: bool)
      requires buf.Valid() && CanParse(View()) && SetMethodOk(View(), buf.Readable())
      modifies this`state, request, buf`readerIndex, buf`writerIndex
      ensures buf.Valid()
      ensures Turned(ok, View(), buf.Readable(), hasMore) == Turn(old(View()), old(buf.Readable()))
      ensures hasMore ==> ok && state == ExpectHeaders && |buf.Readable()| < |old(buf.Readable())|
    {
      if state == ExpectRequestLine {
        ok, hasMore := TakeRequestLine(buf);
      } else {
        ok := true;
        hasMore := TakeHeader(buf);
      }
    }

    method TakeRequestLine(buf: B.Buffer) returns (ok: bool, hasMore: bool)
      requires buf.Valid() && state == ExpectRequestLine && SetMethodOk(View(), buf.Readable())
      modifies this`state, request, buf`readerIndex, buf`writerIndex
      ensures buf.Valid()
      ensures Turned(ok, View(), buf.Readable(), hasMore) == Turn(old(View()), old(buf.Readable()))
      ensures hasMore ==> ok && state == ExpectHeaders && |buf.Readable()| < |old(buf.Readable())|
    {
      hide S.ProcessRequestLine, B.FindCRLF, Find;
      ok, hasMore := true, false;
      var crlf := buf.FindCRLFIndex();
      if crlf.Some? {
        B.FindCRLFIsFirst(buf.Readable());
        var bytes := buf.Peek();
        ok := ProcessRequestLine(bytes[..crlf.value]);
        if ok {
          buf.Retrieve(crlf.value + 2);
          state := ExpectHeaders;
          hasMore := true;
        }
      }
    }

    method TakeHeader(buf: B.Buffer) returns (hasMore: bool)
      requires buf.Valid() && state == ExpectHeaders
      modifies this`state, request, buf`readerIndex, buf`writerIndex
      ensures buf.Valid()
      ensures Turned(true, View(), buf.Readable(), hasMore) == Turn(old(View()), old(buf.Readable()))
      ensures hasMore ==> state == ExpectHeaders && |buf.Readable()| < |old(buf.Readable())|
    {
      hide S.AddHeader, B.FindCRLF, Find;
      hasMore := false;
      var crlf := buf.FindCRLFIndex();
      if crlf.Some? {
        B.FindCRLFIsFirst(buf.Readable());
        var bytes := buf.Peek();
        var line := bytes[..crlf.value];
        var colon := Find(line, COLON);
        if colon != |line| {
          request.AddHeader(line, colon);
          hasMore := true;
        } else {
          state := GotAll;
        }
        buf.Retrieve(crlf.value + 2);
      }
    }
  }
}
