/**
  HTTP/1.1 messages on the channel: how a captured response is framed, and the reader
  that takes it apart again. Here a char is one byte, so lengths count bytes.
 */
module Http {
  import opened Io
  import opened Strconv
  import opened Strings
  import opened Wrappers

  /** Values by canonical field name, as in Go's `http.Header`. */
  type Header = map<string, seq<string>>

  /** The names `Header.Del` is called with; `TE` becomes the canonical `Te`. */
  const HOP_BY_HOP: seq<string> := [
    "Connection", "Keep-Alive", "Proxy-Authenticate", "Proxy-Authorization",
    "Te", "Trailers", "Transfer-Encoding", "Upgrade"]

  function Deleted(h: Header, names: seq<string>): Header {
    h - set n | n in names
  }

  /** The framing the handler controls: its own length, and the connection closed. */
  function Framed(h: Header, length: nat): Header {
    h["Content-Length" := [Itoa(length)]]["Connection" := ["close"]]
  }

  /** A captured upstream response. The cache and whoever serves it share its header. */
  class Response {
    const statusCode: int
    const status: string
    const body: string
    var header: Header

    constructor (statusCode: int, status: string, body: string, header: Header)
      ensures this.statusCode == statusCode && this.status == status
      ensures this.body == body && this.header == header
    {
      this.statusCode, this.status, this.body, this.header := statusCode, status, body, header;
    }

    method DeleteHopByHop()
      modifies this
      ensures header == Deleted(old(header), HOP_BY_HOP)
    {
      for i := 0 to |HOP_BY_HOP|
        invariant header == Deleted(old(header), HOP_BY_HOP[..i])
      {
        assert forall n :: n in HOP_BY_HOP[..i + 1] <==> n in HOP_BY_HOP[..i] || n == HOP_BY_HOP[i];
        header := header - {HOP_BY_HOP[i]};
      }
      assert HOP_BY_HOP[..|HOP_BY_HOP|] == HOP_BY_HOP;
    }
  }

  /** `statusTextOnly` */
  function StatusTextOnly(status: string): string {
    var space := IndexOf(status, ' ');
    if space >= 0 then status[space + 1..] else status
  }

  /** The code that the upstream's status opens with is taken off. */
  lemma StatusTextAfterCode(code: int, text: string)
    ensures StatusTextOnly(Itoa(code) + (" " + text)) == text
  {
    NoSpaceInNumber(code);
    IndexOfFirst(Itoa(code), ' ', text);
    assert (Itoa(code) + (" " + text))[|Itoa(code)| + 1..] == text;
  }

  lemma NoSpaceInNumber(n: int)
    ensures ' ' !in Itoa(n) && '\r' !in Itoa(n)
  {
    assert AllDigits(Digits(if n < 0 then -n else n));
  }

  /** So is anything else before a space: a text by itself is kept if and only if it has none. */
  lemma StatusTextKeptIff(status: string)
    ensures StatusTextOnly(status) == status <==> ' ' !in status
  {
    assert IndexOf(status, ' ') >= 0 ==> |StatusTextOnly(status)| < |status|;
  }

  function StatusLine(statusCode: int, text: string): string {
    "HTTP/1.1 " + (Itoa(statusCode) + (" " + text))
  }

  // ----- Writing

  datatype Field = Field(name: string, value: string)

  function FieldsOf(name: string, values: seq<string>): seq<Field> {
    seq(|values|, i requires 0 <= i < |values| => Field(name, values[i]))
  }

  /** The fields in the order the names are gone through. */
  function FieldsInOrder(h: Header, order: seq<string>): seq<Field>
    requires forall k :: k in order ==> k in h
  {
    if order == [] then []
    else
      var last := order[|order| - 1];
      assert last in order;
      FieldsInOrder(h, order[..|order| - 1]) + FieldsOf(last, h[last])
  }

  function FieldLine(f: Field): string {
    f.name + (": " + (f.value + "\r\n"))
  }

  function FieldLines(fields: seq<Field>): string {
    if fields == [] then "" else FieldLine(fields[0]) + FieldLines(fields[1..])
  }

  /** What follows the status line. */
  function Rest(fields: seq<Field>, body: string): string {
    FieldLines(fields) + ("\r\n" + body)
  }

  function Message(statusLine: string, fields: seq<Field>, body: string): string {
    (statusLine + "\r\n") + Rest(fields, body)
  }

  /** `order` lists the names in `h`, each once. */
  ghost predicate IsOrder(order: seq<string>, h: Header) {
    && (forall k :: k in order <==> k in h)
    && (forall i, j :: 0 <= i < j < |order| ==> order[i] != order[j])
  }

  /** The sink took an opening of the stream, all of it unless it failed. */
  ghost predicate Took(before: string, after: string, stream: string, failed: bool) {
    && |before| <= |after| <= |before| + |stream|
    && after == before + stream[..|after| - |before|]
    && (!failed ==> |after| == |before| + |stream|)
  }

  lemma {:induction false} FieldLinesConcat(a: seq<Field>, b: seq<Field>)
    ensures FieldLines(a + b) == FieldLines(a) + FieldLines(b)
  {
    if a == [] {
      assert a + b == b;
    } else {
      assert (a + b)[1..] == a[1..] + b;
      FieldLinesConcat(a[1..], b);
    }
  }

  lemma FieldLinesOpen(fields: seq<Field>, i: nat)
    requires i <= |fields|
    ensures FieldLines(fields[..i]) <= FieldLines(fields)
  {
    assert fields == fields[..i] + fields[i..];
    FieldLinesConcat(fields[..i], fields[i..]);
  }

  lemma NextFieldLine(fields: seq<Field>, i: nat)
    requires i < |fields|
    ensures FieldLines(fields[..i]) + FieldLine(fields[i]) == FieldLines(fields[..i + 1])
  {
    assert fields[..i + 1] == fields[..i] + [fields[i]];
    FieldLinesConcat(fields[..i], [fields[i]]);
    assert FieldLines([fields[i]]) == FieldLine(fields[i]) + "";
  }

  lemma {:induction false} FieldsInOrderPrefix(h: Header, order: seq<string>, k: nat)
    requires k <= |order| && forall x :: x in order ==> x in h
    ensures FieldsInOrder(h, order[..k]) <= FieldsInOrder(h, order)
    decreases |order|
  {
    if k < |order| {
      var n := |order| - 1;
      assert order[..n][..k] == order[..k];
      FieldsInOrderPrefix(h, order[..n], k);
    } else {
      assert order[..k] == order;
    }
  }

  lemma FieldsOfNext(h: Header, order: seq<string>, k: nat)
    requires k < |order| && forall x :: x in order ==> x in h
    ensures order[k] in h
    ensures FieldsInOrder(h, order[..k]) + FieldsOf(order[k], h[order[k]]) == FieldsInOrder(h, order[..k + 1])
    ensures FieldsInOrder(h, order[..k + 1]) <= FieldsInOrder(h, order)
  {
    assert order[k] in order;
    assert order[..k + 1][..k] == order[..k];
    FieldsInOrderPrefix(h, order, k + 1);
  }

  lemma TookMore(before: string, between: string, after: string, first: string, second: string, failed: bool)
    requires Took(before, between, first, false) && Took(between, after, second, failed)
    ensures Took(before, after, first + second, failed)
  {
    assert between == before + first;
    assert after == before + (first + second)[..|after| - |before|];
  }

  lemma TookPart(before: string, after: string, part: string, stream: string)
    requires Took(before, after, part, true) && part <= stream
    ensures Took(before, after, stream, true)
  {
    assert part[..|after| - |before|] == stream[..|after| - |before|];
  }

  /** The inner loop: one line for each value of a name. */
  method WriteValues(key: string, values: seq<string>, w: Sink<char>) returns (failed: bool)
    modifies w
    ensures Took(old(w.accepted), w.accepted, FieldLines(FieldsOf(key, values)), failed)
  {
    ghost var fields, start := FieldsOf(key, values), w.accepted;
    for j := 0 to |values|
      invariant Took(start, w.accepted, FieldLines(fields[..j]), false)
    {
      ghost var between := w.accepted;
      var line := key + (": " + (values[j] + "\r\n"));
      var n;
      n, failed := w.Write(line);
      NextFieldLine(fields, j);
      TookMore(start, between, w.accepted, FieldLines(fields[..j]), line, failed);
      if failed {
        FieldLinesOpen(fields, j + 1);
        TookPart(start, w.accepted, FieldLines(fields[..j + 1]), FieldLines(fields));
        return;
      }
    }
    assert fields[..|values|] == fields;
    failed := false;
  }

  /** The loop over the header, the blank line and the body. */
  method WriteRest(h: Header, order: seq<string>, body: string, w: Sink<char>) returns (failed: bool)
    requires IsOrder(order, h)
    modifies w
    ensures Took(old(w.accepted), w.accepted, Rest(FieldsInOrder(h, order), body), failed)
  {
    ghost var start := w.accepted;
    ghost var stream := Rest(FieldsInOrder(h, order), body);
    for k := 0 to |order|
      invariant Took(start, w.accepted, FieldLines(FieldsInOrder(h, order[..k])), false)
    {
      ghost var between := w.accepted;
      FieldsOfNext(h, order, k);
      failed := WriteValues(order[k], h[order[k]], w);
      ghost var done := FieldsInOrder(h, order[..k]);
      FieldLinesConcat(done, FieldsOf(order[k], h[order[k]]));
      TookMore(start, between, w.accepted, FieldLines(done), FieldLines(FieldsOf(order[k], h[order[k]])), failed);
      if failed {
        ghost var fields := FieldsInOrder(h, order);
        assert fields[..|FieldsInOrder(h, order[..k + 1])|] == FieldsInOrder(h, order[..k + 1]);
        FieldLinesOpen(fields, |FieldsInOrder(h, order[..k + 1])|);
        TookPart(start, w.accepted, FieldLines(FieldsInOrder(h, order[..k + 1])), stream);
        return;
      }
    }
    assert order[..|order|] == order;
    failed := WriteEnd(FieldLines(FieldsInOrder(h, order)), body, w, start);
  }

  method WriteEnd(ghost lines: string, body: string, w: Sink<char>, ghost start: string) returns (failed: bool)
    requires Took(start, w.accepted, lines, false)
    modifies w
    ensures Took(start, w.accepted, lines + ("\r\n" + body), failed)
  {
    var n;
    n, failed := w.Write("\r\n");
    TookMore(start, old(w.accepted), w.accepted, lines, "\r\n", failed);
    assert lines + "\r\n" + body == lines + ("\r\n" + body);
    if failed {
      TookPart(start, w.accepted, lines + "\r\n", lines + ("\r\n" + body));
      return;
    }
    ghost var between := w.accepted;
    n, failed := w.Write(body);
    TookMore(start, between, w.accepted, lines + "\r\n", body, failed);
  }

  /** A captured response as its bytes should appear, with the names in the given order. */
  function Served(statusCode: int, text: string, h: Header, order: seq<string>, body: string): string
    requires forall k :: k in order ==> k in h
  {
    Message(StatusLine(statusCode, StatusTextOnly(text)), FieldsInOrder(h, order), body)
  }

  /** The status text `proxyCallBinary` starts from. */
  function ShownStatus(status: string, statusCode: int, statusText: int -> string): string {
    if status == "" then statusText(statusCode) else status
  }

  /**
    `proxyCallBinary` once it has the response. It sets its framing in the header it was
    given, which is the cached one. `order` is the order Go's map iteration happens to take.
   */
  method WriteResponse(resp: Response, statusText: int -> string, order: seq<string>, w: Sink<char>)
    returns (failed: bool)
    requires IsOrder(order, Framed(resp.header, |resp.body|))
    modifies resp, w
    ensures resp.header == old(resp.header) || resp.header == Framed(old(resp.header), |resp.body|)
    ensures !failed ==> resp.header == Framed(old(resp.header), |resp.body|)
    ensures Took(old(w.accepted), w.accepted,
                 Served(resp.statusCode, ShownStatus(resp.status, resp.statusCode, statusText),
                        Framed(old(resp.header), |resp.body|), order, resp.body), failed)
  {
    var status := resp.status;
    if status == "" {
      status := statusText(resp.statusCode);
    }
    var statusLine := "HTTP/1.1 " + (Itoa(resp.statusCode) + (" " + StatusTextOnly(status))) + "\r\n";
    ghost var framed, start := Framed(resp.header, |resp.body|), w.accepted;
    ghost var rest := Rest(FieldsInOrder(framed, order), resp.body);
    var n;
    n, failed := w.Write(statusLine);
    if failed {
      TookPart(start, w.accepted, statusLine, statusLine + rest);
      return;
    }
    resp.header := resp.header["Content-Length" := [Itoa(|resp.body|)]];
    resp.header := resp.header["Connection" := ["close"]];
    ghost var between := w.accepted;
    failed := WriteRest(resp.header, order, resp.body, w);
    TookMore(start, between, w.accepted, statusLine, rest, failed);
  }

  /** The backend half of `receivePackBinary`: the same message from a copy of the header. */
  method WriteFetched(statusCode: int, status: string, upstream: Header, body: string, order: seq<string>, w: Sink<char>)
    returns (failed: bool)
    requires IsOrder(order, Framed(Deleted(upstream, HOP_BY_HOP), |body|))
    modifies w
    ensures Took(old(w.accepted), w.accepted,
                 Served(statusCode, status, Framed(Deleted(upstream, HOP_BY_HOP), |body|), order, body), failed)
  {
    var statusLine := "HTTP/1.1 " + (Itoa(statusCode) + (" " + StatusTextOnly(status))) + "\r\n";
    ghost var start := w.accepted;
    var n;
    n, failed := w.Write(statusLine);
    var copy := new Response(statusCode, status, body, upstream);
    copy.DeleteHopByHop();
    copy.header := copy.header["Content-Length" := [Itoa(|body|)]];
    copy.header := copy.header["Connection" := ["close"]];
    ghost var rest := Rest(FieldsInOrder(copy.header, order), body);
    if failed {
      TookPart(start, w.accepted, statusLine, statusLine + rest);
      return;
    }
    ghost var between := w.accepted;
    failed := WriteRest(copy.header, order, body, w);
    TookMore(start, between, w.accepted, statusLine, rest, failed);
  }

  // ----- Reading

  /** The text before the first CRLF, and what follows it. */
  function ReadLine(s: string): (r: Option<(string, string)>)
    ensures r.Some? ==> |r.value.1| < |s|
  {
    if |s| < 2 then None
    else if s[0] == '\r' && s[1] == '\n' then Some(("", s[2..]))
    else
      var r := ReadLine(s[1..]);
      if r.None? then None else Some(([s[0]] + r.value.0, r.value.1))
  }

  function ParseField(line: string): Option<Field> {
    var colon := IndexOf(line, ':');
    if colon <= 0 || colon + 1 >= |line| || line[colon + 1] != ' ' then None
    else Some(Field(line[..colon], line[colon + 2..]))
  }

  /** Fields up to the blank line. */
  function ReadFields(s: string): Option<(seq<Field>, string)>
    decreases |s|
  {
    match ReadLine(s)
    case None => None
    case Some((line, rest)) =>
      if line == "" then Some(([], rest))
      else
        match (ParseField(line), ReadFields(rest))
        case (Some(f), Some((fields, body))) => Some(([f] + fields, body))
        case _ => None
  }

  function ValuesOf(fields: seq<Field>, name: string): seq<string> {
    if fields == [] then []
    else (if fields[0].name == name then [fields[0].value] else []) + ValuesOf(fields[1..], name)
  }

  /** A message with one valid Content-Length (section 6 of RFC 9112): status line, fields and body. */
  function ReadMessage(s: string): Option<(string, seq<Field>, string)> {
    match ReadLine(s)
    case None => None
    case Some((statusLine, rest)) =>
      match ReadFields(rest)
      case None => None
      case Some((fields, body)) =>
        var lengths := ValuesOf(fields, "Content-Length");
        if |lengths| != 1 then None
        else
          match Atoi(lengths[0])
          case None => None
          case Some(n) => if 0 <= n <= |body| then Some((statusLine, fields, body[..n])) else None
  }

  ghost predicate CleanField(f: Field) {
    f.name != "" && ':' !in f.name && '\r' !in f.name && '\r' !in f.value
  }

  /** What Go's HTTP client lets through: no line breaks inside names and values. */
  ghost predicate CleanHeader(h: Header) {
    forall k, v :: k in h && v in h[k] ==> CleanField(Field(k, v))
  }

  lemma {:induction false} ReadLineBack(line: string, rest: string)
    requires '\r' !in line
    ensures ReadLine(line + ("\r\n" + rest)) == Some((line, rest))
  {
    var s := line + ("\r\n" + rest);
    if line == "" {
      assert s == "\r\n" + rest;
      assert s[2..] == rest;
    } else {
      assert s[1..] == line[1..] + ("\r\n" + rest);
      assert line == [line[0]] + line[1..];
      ReadLineBack(line[1..], rest);
    }
  }

  lemma ParseFieldBack(f: Field)
    requires CleanField(f)
    ensures ParseField(f.name + (": " + f.value)) == Some(f)
  {
    AtTheColon(f.name, f.value, f.name + (": " + f.value));
  }

  lemma AtTheColon(name: string, value: string, line: string)
    requires ':' !in name && line == name + (": " + value)
    ensures IndexOf(line, ':') == |name| && line[..|name|] == name
    ensures |name| + 2 <= |line| && line[|name| + 2..] == value && line[|name| + 1] == ' '
  {
    assert line == name + ([':'] + ([' '] + value));
    IndexOfFirst(name, ':', [' '] + value);
  }

  lemma {:induction false} ReadFieldsBack(fields: seq<Field>, body: string)
    requires forall f :: f in fields ==> CleanField(f)
    ensures ReadFields(Rest(fields, body)) == Some((fields, body))
  {
    if fields == [] {
      assert Rest(fields, body) == "" + ("\r\n" + body);
      ReadLineBack("", body);
    } else {
      var f := fields[0];
      assert f in fields;
      ReadFieldsBack(fields[1..], body);
      RestOfOneMore(f, fields[1..], body);
      assert fields == [f] + fields[1..];
      OneMoreField(f, fields[1..], Rest(fields[1..], body), body);
    }
  }

  lemma RestOfOneMore(f: Field, fields: seq<Field>, body: string)
    ensures Rest([f] + fields, body) == (f.name + (": " + f.value)) + ("\r\n" + Rest(fields, body))
  {
    assert ([f] + fields)[1..] == fields;
  }

  lemma OneMoreField(f: Field, fields: seq<Field>, rest: string, body: string)
    requires CleanField(f) && ReadFields(rest) == Some((fields, body))
    ensures ReadFields((f.name + (": " + f.value)) + ("\r\n" + rest)) == Some(([f] + fields, body))
  {
    var line := f.name + (": " + f.value);
    assert '\r' !in line;
    ReadLineBack(line, rest);
    ParseFieldBack(f);
  }

  lemma {:induction false} ValuesOfConcat(a: seq<Field>, b: seq<Field>, name: string)
    ensures ValuesOf(a + b, name) == ValuesOf(a, name) + ValuesOf(b, name)
  {
    if a == [] {
      assert a + b == b;
    } else {
      ValuesOfConcat(a[1..], b, name);
      assert a + b == [a[0]] + (a[1..] + b) && a == [a[0]] + a[1..];
      ValuesOfCons(a[0], a[1..], name);
      ValuesOfCons(a[0], a[1..] + b, name);
    }
  }

  lemma ValuesOfCons(f: Field, rest: seq<Field>, name: string)
    ensures ValuesOf([f] + rest, name) == (if f.name == name then [f.value] else []) + ValuesOf(rest, name)
  {
    assert ([f] + rest)[1..] == rest;
  }

  lemma {:induction false} ValuesOfOneName(key: string, values: seq<string>, name: string)
    ensures ValuesOf(FieldsOf(key, values), name) == if key == name then values else []
  {
    if values != [] {
      ValuesOfOneName(key, values[1..], name);
      assert FieldsOf(key, values) == [Field(key, values[0])] + FieldsOf(key, values[1..]);
      ValuesOfCons(Field(key, values[0]), FieldsOf(key, values[1..]), name);
      assert values == [values[0]] + values[1..];
    }
  }

  /** Whatever the order, each name carries exactly the header's values, in their order. */
  lemma {:induction false} ValuesInOrder(h: Header, order: seq<string>, name: string)
    requires forall k :: k in order ==> k in h
    requires forall i, j :: 0 <= i < j < |order| ==> order[i] != order[j]
    ensures ValuesOf(FieldsInOrder(h, order), name) == if name in order then h[name] else []
  {
    if order != [] {
      var n := |order| - 1;
      var last := order[n];
      assert order == order[..n] + [last];
      assert last in order && last !in order[..n];
      assert name in order <==> name in order[..n] || name == last;
      ValuesInOrder(h, order[..n], name);
      ValuesOfConcat(FieldsInOrder(h, order[..n]), FieldsOf(last, h[last]), name);
      ValuesOfOneName(last, h[last], name);
    }
  }

  lemma {:induction false} FieldsAreClean(h: Header, order: seq<string>)
    requires CleanHeader(h) && forall k :: k in order ==> k in h
    ensures forall f :: f in FieldsInOrder(h, order) ==> CleanField(f)
  {
    if order != [] {
      FieldsAreClean(h, order[..|order| - 1]);
      assert order[|order| - 1] in order;
    }
  }

  /**
    A reader of the bytes served, whatever follows them, gets the status line, for every
    name exactly the values in the header, and the body: no more and no less.
   */
  lemma ServedCanBeRead(statusCode: int, text: string, h: Header, order: seq<string>, body: string, after: string)
    requires CleanHeader(h) && '\r' !in StatusLine(statusCode, StatusTextOnly(text)) && |body| < TWO_63
    requires IsOrder(order, Framed(h, |body|))
    ensures var framed := Framed(h, |body|);
      var fields := FieldsInOrder(framed, order);
      && ReadMessage(Served(statusCode, text, framed, order, body) + after) ==
           Some((StatusLine(statusCode, StatusTextOnly(text)), fields, body))
      && forall name :: ValuesOf(fields, name) == if name in framed then framed[name] else []
  {
    var framed := Framed(h, |body|);
    var fields, statusLine := FieldsInOrder(framed, order), StatusLine(statusCode, StatusTextOnly(text));
    forall name
      ensures ValuesOf(fields, name) == if name in framed then framed[name] else []
    {
      ValuesInOrder(framed, order, name);
    }
    FramedNames(h, |body|);
    FramedIsClean(h, |body|);
    FieldsAreClean(framed, order);
    MessageCanBeRead(statusLine, fields, body, after);
  }

  lemma MessageCanBeRead(statusLine: string, fields: seq<Field>, body: string, after: string)
    requires '\r' !in statusLine && |body| < TWO_63 && forall f :: f in fields ==> CleanField(f)
    requires ValuesOf(fields, "Content-Length") == [Itoa(|body|)]
    ensures ReadMessage(Message(statusLine, fields, body) + after) == Some((statusLine, fields, body))
  {
    var rest := Rest(fields, body + after);
    ReadLineBack(statusLine, rest);
    ReadFieldsBack(fields, body + after);
    MessageThen(statusLine, fields, body, after);
    BodyByLength(statusLine + ("\r\n" + rest), statusLine, rest, fields, body + after, |body|);
    assert (body + after)[..|body|] == body;
  }

  lemma MessageThen(statusLine: string, fields: seq<Field>, body: string, after: string)
    ensures Message(statusLine, fields, body) + after == statusLine + ("\r\n" + Rest(fields, body + after))
  {
  }

  lemma BodyByLength(s: string, statusLine: string, rest: string, fields: seq<Field>, left: string, n: nat)
    requires ReadLine(s) == Some((statusLine, rest)) && ReadFields(rest) == Some((fields, left))
    requires ValuesOf(fields, "Content-Length") == [Itoa(n)] && n <= |left| && n < TWO_63
    ensures ReadMessage(s) == Some((statusLine, fields, left[..n]))
  {
    AtoiOfItoa(n);
  }

  lemma FramedNames(h: Header, n: nat)
    ensures Framed(h, n)["Content-Length"] == [Itoa(n)] && Framed(h, n)["Connection"] == ["close"]
    ensures forall k :: k in Framed(h, n) && k != "Content-Length" && k != "Connection" ==> k in h && Framed(h, n)[k] == h[k]
  {
    assert "Content-Length"[3] != "Connection"[3];
  }

  lemma FramedIsClean(h: Header, n: nat)
    requires CleanHeader(h)
    ensures CleanHeader(Framed(h, n))
  {
    FramedNames(h, n);
    LengthIsClean(n);
    forall k, v | k in Framed(h, n) && v in Framed(h, n)[k]
      ensures CleanField(Field(k, v))
    {
    }
  }

  lemma LengthIsClean(n: nat)
    ensures CleanField(Field("Content-Length", Itoa(n))) && CleanField(Field("Connection", "close"))
  {
    assert AllDigits(Digits(n));
  }

  /** Setting the framing again changes nothing. */
  lemma FramedTwice(h: Header, n: nat)
    ensures Framed(Framed(h, n), n) == Framed(h, n)
  {
  }

  /** The shared header after a number of servings. */
  function HeaderAfter(h: Header, n: nat, servings: nat): Header {
    if servings == 0 then h else Framed(HeaderAfter(h, n, servings - 1), n)
  }

  /** Each serving of one cached response, first or later, shows a reader the same fields. */
  lemma {:induction false} EveryServingAlike(h: Header, n: nat, k: nat, order: seq<string>, name: string)
    requires IsOrder(order, Framed(HeaderAfter(h, n, k), n))
    ensures Framed(HeaderAfter(h, n, k), n) == Framed(h, n)
    ensures ValuesOf(FieldsInOrder(Framed(HeaderAfter(h, n, k), n), order), name) ==
            if name in Framed(h, n) then Framed(h, n)[name] else []
  {
    if k > 0 {
      FramedTwice(HeaderAfter(h, n, k - 1), n);
      EveryServingAlike(h, n, k - 1, order, name);
    } else {
      ValuesInOrder(Framed(h, n), order, name);
    }
  }

  /** A served response carries no field on the program's own list. */
  lemma HopByHopGone(upstream: Header, n: nat, order: seq<string>, name: string)
    requires name in HOP_BY_HOP && name != "Connection"
    requires IsOrder(order, Framed(Deleted(upstream, HOP_BY_HOP), n))
    ensures ValuesOf(FieldsInOrder(Framed(Deleted(upstream, HOP_BY_HOP), n), order), name) == []
  {
    ValuesInOrder(Framed(Deleted(upstream, HOP_BY_HOP), n), order, name);
    LengthIsEndToEnd();
  }

  /** The program's list, name by name. */
  lemma HopByHopNames(name: string)
    ensures name in HOP_BY_HOP <==>
      || name == "Connection" || name == "Keep-Alive" || name == "Proxy-Authenticate" || name == "Proxy-Authorization"
      || name == "Te" || name == "Trailers" || name == "Transfer-Encoding" || name == "Upgrade"
  {
    var l := HOP_BY_HOP;
    assert l[0] == "Connection" && l[1] == "Keep-Alive" && l[2] == "Proxy-Authenticate" && l[3] == "Proxy-Authorization";
    assert l[4] == "Te" && l[5] == "Trailers" && l[6] == "Transfer-Encoding" && l[7] == "Upgrade";
  }

  lemma LengthIsEndToEnd()
    ensures "Content-Length" !in HOP_BY_HOP
  {
    assert forall i :: 0 <= i < |HOP_BY_HOP| ==> |HOP_BY_HOP[i]| != |"Content-Length"|;
  }

  // ----- What of the upstream connection is still forwarded

  /** The hop-by-hop fields as RFC 7230 names them: `Trailer` (section 4.4) where the program has `Trailers`. */
  const STANDARD_HOP_BY_HOP: seq<string> := [
    "Connection", "Keep-Alive", "Proxy-Authenticate", "Proxy-Authorization",
    "Te", "Trailer", "Transfer-Encoding", "Upgrade"]

  /** A connection option in one of the header's `Connection` values nominates the field (section 6.1 of RFC 7230). */
  ghost predicate Nominated(h: Header, canonical: string -> string, name: string) {
    "Connection" in h &&
    exists v, option :: v in h["Connection"] && option in Split(v, ',') && canonical(TrimSpace(option)) == name
  }

  ghost predicate IsHopByHop(h: Header, canonical: string -> string, name: string) {
    name in STANDARD_HOP_BY_HOP || Nominated(h, canonical, name)
  }

  predicate HasField(h: Header, name: string) {
    name in h && h[name] != []
  }

  /** The fields the daemon sets itself, whatever the upstream sent. */
  predicate IsOwnFraming(name: string) {
    name == "Connection" || name == "Content-Length"
  }

  /** The fields of a message made from the upstream's header, in the order of its names. */
  function ForwardedFields(upstream: Header, length: nat, order: seq<string>): seq<Field>
    requires forall k :: k in order ==> k in Framed(Deleted(upstream, HOP_BY_HOP), length)
  {
    FieldsInOrder(Framed(Deleted(upstream, HOP_BY_HOP), length), order)
  }

  /** The message has no field of the upstream's connection. */
  ghost predicate EndToEnd(upstream: Header, canonical: string -> string, fields: seq<Field>) {
    forall name :: IsHopByHop(upstream, canonical, name) && !IsOwnFraming(name) ==> ValuesOf(fields, name) == []
  }

  /** The upstream's header leads to such a message: no `Trailer`, and nothing nominated that is not on the list. */
  ghost predicate NothingLeftOver(upstream: Header, canonical: string -> string) {
    && !HasField(upstream, "Trailer")
    && forall name :: Nominated(upstream, canonical, name) && name !in HOP_BY_HOP && !IsOwnFraming(name) ==>
         !HasField(upstream, name)
  }

  /** Apart from the daemon's own, exactly the fields not on the program's list are forwarded. */
  lemma ForwardedIff(upstream: Header, length: nat, order: seq<string>, name: string)
    requires IsOrder(order, Framed(Deleted(upstream, HOP_BY_HOP), length)) && !IsOwnFraming(name)
    ensures ValuesOf(ForwardedFields(upstream, length, order), name) ==
            if name in upstream && name !in HOP_BY_HOP then upstream[name] else []
  {
    ValuesInOrder(Framed(Deleted(upstream, HOP_BY_HOP), length), order, name);
    assert name in Deleted(upstream, HOP_BY_HOP) <==> name in upstream && name !in HOP_BY_HOP;
  }

  lemma ListsDiffer(name: string)
    ensures name in STANDARD_HOP_BY_HOP && name !in HOP_BY_HOP <==> name == "Trailer"
  {
    assert STANDARD_HOP_BY_HOP[5] == "Trailer";
    assert HOP_BY_HOP[0] == "Connection" && HOP_BY_HOP[1] == "Keep-Alive" && HOP_BY_HOP[2] == "Proxy-Authenticate";
    assert HOP_BY_HOP[3] == "Proxy-Authorization" && HOP_BY_HOP[4] == "Te";
    assert HOP_BY_HOP[6] == "Transfer-Encoding" && HOP_BY_HOP[7] == "Upgrade";
  }

  /** No field of the upstream's connection is forwarded if and only if none is left over by the list. */
  lemma EndToEndIff(upstream: Header, canonical: string -> string, length: nat, order: seq<string>)
    requires IsOrder(order, Framed(Deleted(upstream, HOP_BY_HOP), length))
    ensures EndToEnd(upstream, canonical, ForwardedFields(upstream, length, order)) <==>
            NothingLeftOver(upstream, canonical)
  {
    var fields := ForwardedFields(upstream, length, order);
    forall name | !IsOwnFraming(name)
      ensures ValuesOf(fields, name) == [] <==> name in HOP_BY_HOP || !HasField(upstream, name)
      ensures name in STANDARD_HOP_BY_HOP && name !in HOP_BY_HOP <==> name == "Trailer"
    {
      ForwardedIff(upstream, length, order, name);
      ListsDiffer(name);
    }
    assert !IsOwnFraming("Trailer") && IsHopByHop(upstream, canonical, "Trailer") by {
      ListsDiffer("Trailer");
    }
  }

  /** The list's misspelling forwards a `Trailer`. */
  lemma TrailerIsForwarded(value: string, length: nat, order: seq<string>)
    requires IsOrder(order, Framed(Deleted(map["Trailer" := [value]], HOP_BY_HOP), length))
    ensures ValuesOf(ForwardedFields(map["Trailer" := [value]], length, order), "Trailer") == [value]
  {
    ListsDiffer("Trailer");
    ForwardedIff(map["Trailer" := [value]], length, order, "Trailer");
  }

  /** And `Connection` is deleted unread, so a field it nominates is forwarded. */
  lemma NominatedIsForwarded(name: string, value: string, length: nat, order: seq<string>, canonical: string -> string)
    requires name !in HOP_BY_HOP && !IsOwnFraming(name) && Split(name, ',') == [name]
    requires Trimmed(name) && canonical(name) == name
    requires IsOrder(order, Framed(Deleted(map["Connection" := [name], name := [value]], HOP_BY_HOP), length))
    ensures var upstream := map["Connection" := [name], name := [value]];
      && Nominated(upstream, canonical, name)
      && ValuesOf(ForwardedFields(upstream, length, order), name) == [value]
  {
    var upstream := map["Connection" := [name], name := [value]];
    assert name in upstream["Connection"] && name in Split(name, ',');
    TrimSpaceId(name);
    ForwardedIff(upstream, length, order, name);
  }

  /** For one, `X-Hop`. */
  lemma NominatedWitness(value: string, length: nat, order: seq<string>)
    requires IsOrder(order, Framed(Deleted(map["Connection" := ["X-Hop"], "X-Hop" := [value]], HOP_BY_HOP), length))
    ensures var upstream := map["Connection" := ["X-Hop"], "X-Hop" := [value]];
      ValuesOf(ForwardedFields(upstream, length, order), "X-Hop") == [value]
  {
    assert forall i :: 0 <= i < |HOP_BY_HOP| ==> HOP_BY_HOP[i][0] != 'X';
    assert IndexOf("X-Hop", ',') < 0;
    NominatedIsForwarded("X-Hop", value, length, order, (s: string) => s);
  }

  // ----- Status lines

  /** Version, code and text (section 4 of RFC 9112). */
  function ReadStatus(line: string): Option<(string, int, string)> {
    var first := IndexOf(line, ' ');
    if first < 0 then None
    else
      var rest := line[first + 1..];
      var second := IndexOf(rest, ' ');
      if second < 0 then None
      else
        match Atoi(rest[..second])
        case None => None
        case Some(code) => Some((line[..first], code, rest[second + 1..]))
  }

  lemma StatusLineBack(code: int, text: string)
    requires IsInt64(code)
    ensures ReadStatus(StatusLine(code, text)) == Some(("HTTP/1.1", code, text))
  {
    var rest := Itoa(code) + (" " + text);
    VersionAndRest("HTTP/1.1", rest, StatusLine(code, text));
    CodeAndText(code, text, rest);
    ReadParts(StatusLine(code, text), "HTTP/1.1", rest, code, text);
  }

  lemma VersionAndRest(version: string, rest: string, line: string)
    requires version == "HTTP/1.1" && line == "HTTP/1.1 " + rest
    ensures IndexOf(line, ' ') == |version| && line[..|version|] == version && line[|version| + 1..] == rest
  {
    assert line == version + ([' '] + rest);
    IndexOfFirst(version, ' ', rest);
  }

  lemma ReadParts(line: string, version: string, rest: string, code: int, text: string)
    requires IndexOf(line, ' ') == |version| && line[..|version|] == version && line[|version| + 1..] == rest
    requires IndexOf(rest, ' ') == |Itoa(code)| && Atoi(rest[..|Itoa(code)|]) == Some(code)
    requires rest[|Itoa(code)| + 1..] == text
    ensures ReadStatus(line) == Some((version, code, text))
  {
  }

  lemma CodeAndText(code: int, text: string, rest: string)
    requires IsInt64(code) && rest == Itoa(code) + (" " + text)
    ensures IndexOf(rest, ' ') == |Itoa(code)| && Atoi(rest[..|Itoa(code)|]) == Some(code)
    ensures rest[|Itoa(code)| + 1..] == text
  {
    NoSpaceInNumber(code);
    TextAfterSpace(Itoa(code), text, rest);
    AtoiOfItoa(code);
  }

  lemma TextAfterSpace(first: string, text: string, rest: string)
    requires ' ' !in first && rest == first + (" " + text)
    ensures IndexOf(rest, ' ') == |first| && rest[..|first|] == first && rest[|first| + 1..] == text
  {
    IndexOfFirst(first, ' ', text);
  }
}
