/** HTTP signatures after draft-cavage-http-signatures: the header that is created for a
    request, and how it is parsed and the signed message reconstructed. */
module HttpSignature {
  import opened Collections
  import opened Text

  datatype VerificationError = NoSignature | HeaderError(text: string) | ParseError(text: string)

  datatype Parsed<+T> = Ok(value: T) | Err(error: VerificationError) {
    predicate IsFailure() {
      Err?
    }

    function PropagateFailure<U>(): Parsed<U> {
      match this
      case Err(e) => Err(e)
      case Ok(_) => Err(NoSignature)
    }

    function Extract(): T
      requires Ok?
    {
      value
    }
  }

  /** Library code: dates, digests and RSA. Texts of digests and signatures are base64. */
  datatype Crypto = Crypto(
    formatDate: int -> string,
    parseDate: string -> Option<int>,        // RFC 2822
    parseTimestamp: string -> Option<int>,
    digest: string -> string,
    sign: string -> string)

  /** A request as the receiving server sees it; header names are in lower case. */
  datatype Request = Request(verb: string, path: string, headers: map<string, string>)

  datatype SignatureData = SignatureData(keyId: string, message: string, signature: string, expiresAt: int)

  datatype SignatureHeaders = SignatureHeaders(host: string, date: string, digest: Option<string>, signature: string)

  const HTTP_SIGNATURE_ALGORITHM := "rsa-sha256"
  const SIGNATURE_EXPIRES_IN := 12 * 3600

  function LowerChar(c: char): char {
    if 'A' <= c <= 'Z' then (c as int + 32) as char else c
  }

  function Lower(s: string): string {
    seq(|s|, i requires 0 <= i < |s| => LowerChar(s[i]))
  }

  /** `HeaderValue::to_str` succeeds. */
  predicate HeaderText(s: string) {
    forall c :: c in s ==> c == '\t' || ' ' <= c <= '~'
  }

  // Creation

  function Line(name: string, value: string): string {
    name + ": " + value
  }

  /** The signed headers, in order. */
  function SignedHeaders(verb: string, path: string, host: string, date: string, digest: Option<string>): seq<(string, string)> {
    [("(request-target)", Lower(verb) + " " + path), ("host", host), ("date", date)]
    + (if digest.Some? then [("digest", digest.value)] else [])
  }

  function Names(headers: seq<(string, string)>): seq<string> {
    seq(|headers|, i requires 0 <= i < |headers| => headers[i].0)
  }

  function Lines(headers: seq<(string, string)>): seq<string> {
    seq(|headers|, i requires 0 <= i < |headers| => Line(headers[i].0, headers[i].1))
  }

  function Parameter(key: string, value: string): string {
    key + "=\"" + value + "\""
  }

  function BodyDigest(c: Crypto, body: string): Option<string> {
    if body == "" then None else Some("SHA-256=" + c.digest(body))
  }

  function SigningString(c: Crypto, verb: string, path: string, host: string, now: int, body: string): string {
    Join(Lines(SignedHeaders(verb, path, host, c.formatDate(now), BodyDigest(c, body))), '\n')
  }

  function HeaderList(c: Crypto, verb: string, path: string, host: string, now: int, body: string): string {
    Join(Names(SignedHeaders(verb, path, host, c.formatDate(now), BodyDigest(c, body))), ' ')
  }

  function SignatureParameters(keyId: string, names: string, signature: string): seq<string> {
    [Parameter("keyId", keyId), Parameter("algorithm", HTTP_SIGNATURE_ALGORITHM),
     Parameter("headers", names), Parameter("signature", signature)]
  }

  function Created(c: Crypto, verb: string, path: string, host: string, now: int, body: string, keyId: string): SignatureHeaders {
    SignatureHeaders(host, c.formatDate(now), BodyDigest(c, body),
                     Join(SignatureParameters(keyId, HeaderList(c, verb, path, host, now, body),
                                              c.sign(SigningString(c, verb, path, host, now, body))), ','))
  }

  /** The methods of requests are in upper case, and signed in lower case. */
  lemma LowerVerbs()
    ensures Lower("GET") == "get" && Lower("POST") == "post"
  {
    assert Lower("GET")[0] == 'g' && Lower("GET")[1] == 'e' && Lower("GET")[2] == 't';
    assert Lower("POST")[0] == 'p' && Lower("POST")[1] == 'o' && Lower("POST")[2] == 's' && Lower("POST")[3] == 't';
  }

  lemma ThreeOrFourSigned(verb: string, path: string, host: string, date: string, digest: Option<string>)
    ensures var headers := SignedHeaders(verb, path, host, date, digest);
            var target := Lower(verb) + " " + path;
            var three := ("(request-target)" + ": " + target) + "\n" + ("host" + ": " + host) + "\n" + ("date" + ": " + date);
            && Join(Lines(headers), '\n') == (if digest.Some? then three + "\n" + ("digest" + ": " + digest.value) else three)
            && Join(Names(headers), ' ') == (if digest.Some? then "(request-target)" + " " + "host" + " " + "date" + " " + "digest"
                                             else "(request-target)" + " " + "host" + " " + "date")
  {
    var headers := SignedHeaders(verb, path, host, date, digest);
    var lines, names := Lines(headers), Names(headers);
    assert ['\n'] == "\n" && [' '] == " ";
    if digest.Some? {
      assert lines == [lines[0], lines[1], lines[2], lines[3]] && names == [names[0], names[1], names[2], names[3]];
      JoinUpTo(lines[0], lines[1], lines[2], lines[3], '\n');
      JoinUpTo(names[0], names[1], names[2], names[3], ' ');
    } else {
      assert lines == [lines[0], lines[1], lines[2]] && names == [names[0], names[1], names[2]];
      JoinThree(lines[0], lines[1], lines[2], '\n');
      JoinThree(names[0], names[1], names[2], ' ');
    }
  }

  lemma JoinThree(a: string, b: string, c: string, sep: char)
    ensures Join([a, b, c], sep) == a + [sep] + b + [sep] + c
  {
    assert [a, b, c][1..] == [b, c] && [b, c][1..] == [c];
    assert Join([c], sep) == c;
    assert Join([b, c], sep) == b + [sep] + c;
  }

  lemma JoinUpTo(a: string, b: string, c: string, d: string, sep: char)
    ensures Join([a, b, c, d], sep) == a + [sep] + b + [sep] + c + [sep] + d
  {
    assert [a, b, c, d][1..] == [b, c, d];
    JoinThree(b, c, d, sep);
  }

  /** `create_http_signature`, for a URL with a host. */
  method CreateHttpSignature(c: Crypto, verb: string, path: string, host: string, now: int, body: string, keyId: string)
    returns (r: SignatureHeaders)
    ensures r == Created(c, verb, path, host, now, body, keyId)
    ensures r.host == host && r.date == c.formatDate(now)
    ensures r.digest == if body == "" then None else Some("SHA-256=" + c.digest(body))
    ensures var three := ("(request-target)" + ": " + (Lower(verb) + " " + path)) + "\n" + ("host" + ": " + host) + "\n" + ("date" + ": " + r.date);
            var names := "(request-target)" + " " + "host" + " " + "date";
            var message := if body == "" then three else three + "\n" + ("digest" + ": " + r.digest.value);
            r.signature == ("keyId" + "=\"" + keyId + "\"") + "," + ("algorithm" + "=\"" + "rsa-sha256" + "\"") + ","
                           + ("headers" + "=\"" + (if body == "" then names else names + " " + "digest") + "\"") + ","
                           + ("signature" + "=\"" + c.sign(message) + "\"")
  {
    var requestTarget := Lower(verb) + " " + path;
    var date := c.formatDate(now);
    var digest := if body == "" then None else Some("SHA-256=" + c.digest(body));
    var headers := [("(request-target)", requestTarget), ("host", host), ("date", date)];
    if digest.Some? {
      headers := headers + [("digest", digest.value)];
    }
    assert headers == SignedHeaders(verb, path, host, date, digest);
    var message := Join(Lines(headers), '\n');
    var names := Join(Names(headers), ' ');
    var signature := c.sign(message);
    var text := Parameter("keyId", keyId) + "," + Parameter("algorithm", HTTP_SIGNATURE_ALGORITHM) + ","
                + Parameter("headers", names) + "," + Parameter("signature", signature);
    JoinFour(SignatureParameters(keyId, names, signature));
    ThreeOrFourSigned(verb, path, host, date, digest);
    r := SignatureHeaders(host, date, digest, text);
  }

  lemma JoinFour(p: seq<string>)
    requires |p| == 4
    ensures Join(p, ',') == p[0] + "," + p[1] + "," + p[2] + "," + p[3]
  {
    assert Join(p[3..], ',') == p[3];
    assert Join(p[2..], ',') == p[2] + "," + Join(p[3..], ',') by {
      assert p[2..][1..] == p[3..];
    }
    assert Join(p[1..], ',') == p[1] + "," + Join(p[2..], ',') by {
      assert p[1..][1..] == p[2..];
    }
  }

  // Parsing

  predicate IsLetter(c: char) {
    'a' <= c <= 'z' || 'A' <= c <= 'Z'
  }

  /** How many letters `s` begins with. */
  function LetterPrefix(s: string): (n: nat)
    ensures n <= |s| && (forall i :: 0 <= i < n ==> IsLetter(s[i])) && (n < |s| ==> !IsLetter(s[n]))
  {
    if s == "" || !IsLetter(s[0]) then 0 else 1 + LetterPrefix(s[1..])
  }

  /** `^(?P<key>[a-zA-Z]+)="(?P<value>.+)"$`, where `.` is any character but a newline. */
  function ParseParameter(item: string): Option<(string, string)> {
    var n := LetterPrefix(item);
    if n > 0 && |item| >= n + 4 && item[n] == '=' && item[n + 1] == '\"' && item[|item| - 1] == '\"'
       && '\n' !in item[n + 2..|item| - 1] then
      Some((item[..n], item[n + 2..|item| - 1]))
    else
      None
  }

  /** Later parameters replace earlier ones of the same name. */
  function ParseParameters(items: seq<string>, parameters: map<string, string>): Parsed<map<string, string>>
    decreases |items|
  {
    if items == [] then Ok(parameters)
    else
      var p := ParseParameter(items[0]);
      if p.None? then Err(HeaderError("invalid signature header"))
      else ParseParameters(items[1..], parameters[p.value.0 := p.value.1])
  }

  function Get(parameters: map<string, string>, name: string, missing: string): Parsed<string> {
    if name in parameters then Ok(parameters[name]) else Err(ParseError(missing))
  }

  function GetHeader(request: Request, name: string, missing: VerificationError, invalid: VerificationError): Parsed<string> {
    if name !in request.headers then Err(missing)
    else if !HeaderText(request.headers[name]) then Err(invalid)
    else Ok(request.headers[name])
  }

  function Time(t: Option<int>, invalid: string): Parsed<int> {
    if t.None? then Err(ParseError(invalid)) else Ok(t.value)
  }

  function CreatedAt(c: Crypto, parameters: map<string, string>, request: Request): Parsed<int> {
    if "created" in parameters then Time(c.parseTimestamp(parameters["created"]), "invalid timestamp")
    else
      var date :- GetHeader(request, "date", ParseError("missing date"), ParseError("invalid date header"));
      Time(c.parseDate(date), "invalid date")
  }

  function ExpiresAt(c: Crypto, parameters: map<string, string>, createdAt: int): Parsed<int> {
    if "expires" in parameters then Time(c.parseTimestamp(parameters["expires"]), "invalid timestamp")
    else Ok(createdAt + SIGNATURE_EXPIRES_IN)
  }

  /** One line of the reconstructed message. */
  function MessagePart(request: Request, parameters: map<string, string>, header: string): Parsed<string> {
    if header == "(request-target)" then Ok(Line(header, Lower(request.verb) + " " + request.path))
    else if header == "(created)" then
      var created :- Get(parameters, "created", "created parameter is missing");
      Ok(Line(header, created))
    else if header == "(expires)" then
      var expires :- Get(parameters, "expires", "expires parameter is missing");
      Ok(Line(header, expires))
    else
      var value :- GetHeader(request, header, HeaderError("missing header"), HeaderError("invalid header value"));
      Ok(Line(header, value))
  }

  function MessageParts(request: Request, parameters: map<string, string>, headers: seq<string>, parts: seq<string>): Parsed<seq<string>>
    decreases |headers|
  {
    if headers == [] then Ok(parts)
    else
      var part :- MessagePart(request, parameters, headers[0]);
      MessageParts(request, parameters, headers[1..], parts + [part])
  }

  function ParseSignature(c: Crypto, request: Request): Parsed<SignatureData> {
    var header :- GetHeader(request, "signature", NoSignature, HeaderError("invalid signature header"));
    var parameters :- ParseParameters(Split(header, ','), map[]);
    var keyId :- Get(parameters, "keyId", "keyId parameter is missing");
    var names :- Get(parameters, "headers", "headers parameter is missing");
    var signature :- Get(parameters, "signature", "signature is missing");
    var createdAt :- CreatedAt(c, parameters, request);
    var expiresAt :- ExpiresAt(c, parameters, createdAt);
    var parts :- MessageParts(request, parameters, Split(names, ' '), []);
    Ok(SignatureData(keyId, Join(parts, '\n'), signature, expiresAt))
  }

  method ReadParameters(items: seq<string>) returns (r: Parsed<map<string, string>>)
    ensures r == ParseParameters(items, map[])
  {
    var parameters := map[];
    for i := 0 to |items|
      invariant ParseParameters(items[i..], parameters) == ParseParameters(items, map[])
    {
      var caps := ParseParameter(items[i]);
      if caps.None? {
        return Err(HeaderError("invalid signature header"));
      }
      assert items[i..][1..] == items[i + 1..];
      parameters := parameters[caps.value.0 := caps.value.1];
    }
    r := Ok(parameters);
  }

  method ReadMessageParts(request: Request, parameters: map<string, string>, headers: seq<string>) returns (r: Parsed<seq<string>>)
    ensures r == MessageParts(request, parameters, headers, [])
  {
    var parts := [];
    for i := 0 to |headers|
      invariant MessageParts(request, parameters, headers[i..], parts) == MessageParts(request, parameters, headers, [])
    {
      assert headers[i..][1..] == headers[i + 1..];
      var part :- MessagePart(request, parameters, headers[i]);
      parts := parts + [part];
    }
    r := Ok(parts);
  }

  /** `parse_http_signature` */
  method ParseHttpSignature(c: Crypto, request: Request) returns (r: Parsed<SignatureData>)
    ensures r == ParseSignature(c, request)
  {
    var header :- GetHeader(request, "signature", NoSignature, HeaderError("invalid signature header"));
    var parameters :- ReadParameters(Split(header, ','));
    var keyId :- Get(parameters, "keyId", "keyId parameter is missing");
    var names :- Get(parameters, "headers", "headers parameter is missing");
    var signature :- Get(parameters, "signature", "signature is missing");
    var createdAt :- CreatedAt(c, parameters, request);
    var expiresAt :- ExpiresAt(c, parameters, createdAt);
    var parts :- ReadMessageParts(request, parameters, Split(names, ' '));
    r := Ok(SignatureData(keyId, Join(parts, '\n'), signature, expiresAt));
  }

  // What is parsed

  /** One line of the signed message, as the receiver rebuilds it from its own view of the request. */
  predicate IsLineFor(request: Request, parameters: map<string, string>, name: string, line: string) {
    if name == "(request-target)" then line == name + ": " + (Lower(request.verb) + " " + request.path)
    else if name == "(created)" then "created" in parameters && line == name + ": " + parameters["created"]
    else if name == "(expires)" then "expires" in parameters && line == name + ": " + parameters["expires"]
    else name in request.headers && line == name + ": " + request.headers[name]
  }

  lemma {:induction false} PartsAreLines(request: Request, parameters: map<string, string>, names: seq<string>, parts: seq<string>)
    ensures var r := MessageParts(request, parameters, names, parts);
            r.Ok? ==>
              && |r.value| == |parts| + |names| && r.value[..|parts|] == parts
              && forall i :: 0 <= i < |names| ==> IsLineFor(request, parameters, names[i], r.value[|parts| + i])
    decreases |names|
  {
    var r := MessageParts(request, parameters, names, parts);
    if r.Ok? && names != [] {
      var part := MessagePart(request, parameters, names[0]).value;
      PartsAreLines(request, parameters, names[1..], parts + [part]);
      assert r.value[..|parts| + 1] == parts + [part];
      assert r.value[|parts|] == (parts + [part])[|parts|];
      forall i | 0 <= i < |names| ensures IsLineFor(request, parameters, names[i], r.value[|parts| + i]) {
        if i > 0 {
          assert names[i] == names[1..][i - 1];
          assert r.value[|parts| + i] == r.value[|parts + [part]| + (i - 1)];
        }
      }
    }
  }

  /** When the signature expires: as it says, or twelve hours after it was created, which is as
      it says or as the date header says. */
  predicate ExpiresWhen(c: Crypto, parameters: map<string, string>, headers: map<string, string>, t: int) {
    if "expires" in parameters then c.parseTimestamp(parameters["expires"]) == Some(t)
    else if "created" in parameters then c.parseTimestamp(parameters["created"]) == Some(t - 43200)
    else "date" in headers && c.parseDate(headers["date"]) == Some(t - 43200)
  }

  /** The parsed data says what the parameters of the signature header say. */
  predicate SaysWhat(c: Crypto, request: Request, parameters: map<string, string>, data: SignatureData) {
    && "keyId" in parameters && data.keyId == parameters["keyId"]
    && "signature" in parameters && data.signature == parameters["signature"]
    && ExpiresWhen(c, parameters, request.headers, data.expiresAt)
  }

  /** The message has one line per signed name. */
  ghost predicate HasLineForEach(request: Request, parameters: map<string, string>, message: string) {
    && "headers" in parameters
    && exists lines :: IsMessage(request, parameters, Split(parameters["headers"], ' '), lines) && message == Join(lines, '\n')
  }

  predicate IsMessage(request: Request, parameters: map<string, string>, names: seq<string>, lines: seq<string>) {
    |lines| == |names| && forall i :: 0 <= i < |names| ==> IsLineFor(request, parameters, names[i], lines[i])
  }

  lemma MessageHasLines(request: Request, parameters: map<string, string>)
    requires "headers" in parameters
    ensures var parts := MessageParts(request, parameters, Split(parameters["headers"], ' '), []);
            parts.Ok? ==> HasLineForEach(request, parameters, Join(parts.value, '\n'))
  {
    var names := Split(parameters["headers"], ' ');
    var parts := MessageParts(request, parameters, names, []);
    PartsAreLines(request, parameters, names, []);
    if parts.Ok? {
      assert forall i :: 0 <= i < |names| ==> IsLineFor(request, parameters, names[i], parts.value[0 + i]);
      assert IsMessage(request, parameters, names, parts.value);
    }
  }

  /** What a successful parse returns, in terms of the request. */
  lemma ParsedFromRequest(c: Crypto, request: Request)
    ensures var r := ParseSignature(c, request);
            r.Ok? ==>
              && "signature" in request.headers
              && var parameters := ParseParameters(Split(request.headers["signature"], ','), map[]);
              && parameters.Ok?
              && SaysWhat(c, request, parameters.value, r.value) && HasLineForEach(request, parameters.value, r.value.message)
    ensures "signature" !in request.headers ==> ParseSignature(c, request) == Err(NoSignature)
  {
    if ParseSignature(c, request).Ok? {
      MessageHasLines(request, ParseParameters(Split(request.headers["signature"], ','), map[]).value);
    }
  }

  // What was created is parsed

  /** No separator and no character that a header cannot carry as text. */
  predicate PlainText(s: string) {
    s != "" && HeaderText(s) && ',' !in s
  }

  /** What the libraries deliver: base64 texts, and dates that parse as what was formatted. */
  ghost predicate LibrariesOk(c: Crypto) {
    && (forall m :: PlainText(c.sign(m)))
    && (forall b :: HeaderText(c.digest(b)))
    && (forall t :: HeaderText(c.formatDate(t)) && c.parseDate(c.formatDate(t)) == Some(t))
  }

  /** The request as it arrives, with the headers that were created for it. */
  function SentRequest(verb: string, path: string, headers: SignatureHeaders): Request {
    var common := map["host" := headers.host, "date" := headers.date, "signature" := headers.signature];
    Request(verb, path, if headers.digest.Some? then common["digest" := headers.digest.value] else common)
  }

  predicate Letters(key: string) {
    key != "" && forall i :: 0 <= i < |key| ==> IsLetter(key[i])
  }

  lemma {:induction false} LetterPrefixOf(key: string, rest: string)
    requires (key == "" || Letters(key)) && rest != "" && !IsLetter(rest[0])
    ensures LetterPrefix(key + rest) == |key|
  {
    if key == "" {
      assert key + rest == rest;
    } else {
      assert (key + rest)[1..] == key[1..] + rest;
      LetterPrefixOf(key[1..], rest);
    }
  }

  /** Any non-empty value on one line survives being written and parsed as a parameter. */
  lemma ParameterRoundTrip(key: string, value: string)
    requires Letters(key)
    ensures ParseParameter(Parameter(key, value)) == if value != "" && '\n' !in value then Some((key, value)) else None
  {
    var item, n := Parameter(key, value), |key|;
    assert item == key + ("=\"" + value + "\"");
    LetterPrefixOf(key, "=\"" + value + "\"");
    assert item[n] == '=' && item[n + 1] == '\"' && item[|item| - 1] == '\"';
    assert item[..n] == key;
    if value != "" {
      assert item[n + 2..|item| - 1] == value;
    }
  }

  /** A parsed parameter has a value without separators. */
  lemma {:induction false} ParsedValues(items: seq<string>, parameters: map<string, string>)
    requires forall i :: 0 <= i < |items| ==> ',' !in items[i]
    requires forall k :: k in parameters ==> parameters[k] != "" && ',' !in parameters[k]
    ensures var r := ParseParameters(items, parameters);
            r.Ok? ==> forall k :: k in r.value ==> r.value[k] != "" && ',' !in r.value[k]
    decreases |items|
  {
    if items != [] {
      var p := ParseParameter(items[0]);
      if p.Some? {
        ParsedValues(items[1..], parameters[p.value.0 := p.value.1]);
      }
    }
  }

  lemma {:induction false} JoinKeepsText(parts: seq<string>, sep: char)
    requires ' ' <= sep <= '~'
    ensures HeaderText(Join(parts, sep)) <==> forall i :: 0 <= i < |parts| ==> HeaderText(parts[i])
  {
    if |parts| > 1 {
      JoinKeepsText(parts[1..], sep);
      assert parts == [parts[0]] + parts[1..];
      var joined := Join(parts[1..], sep);
      assert Join(parts, sep) == parts[0] + [sep] + joined;
      assert HeaderText(Join(parts, sep)) <==> HeaderText(parts[0]) && HeaderText(joined) by {
        if HeaderText(Join(parts, sep)) {
          assert forall c :: c in parts[0] || c in joined ==> c in Join(parts, sep);
        }
      }
    }
  }

  lemma {:induction false} JoinWithout(parts: seq<string>, sep: char, c: char)
    requires c != sep && forall i :: 0 <= i < |parts| ==> c !in parts[i]
    ensures c !in Join(parts, sep)
  {
    if |parts| > 1 {
      JoinWithout(parts[1..], sep, c);
    }
  }

  lemma KnownNames()
    ensures forall name :: name in {"(request-target)", "host", "date", "digest"} ==> PlainText(name) && ' ' !in name
  {
  }

  /** The `headers` parameter lists the signed headers, in order. */
  lemma HeaderListRoundTrip(headers: seq<(string, string)>)
    requires headers != [] && forall i :: 0 <= i < |headers| ==> headers[i].0 in {"(request-target)", "host", "date", "digest"}
    requires headers[0].0 == "(request-target)"
    ensures PlainText(Join(Names(headers), ' ')) && Split(Join(Names(headers), ' '), ' ') == Names(headers)
  {
    KnownNames();
    var names := Names(headers);
    JoinKeepsText(names, ' ');
    JoinWithout(names, ' ', ',');
    SplitJoin(names, ' ');
    assert Join(names, ' ') != "" by {
      assert names[0] != "";
    }
  }

  /** Each signed header is found in the request with the value that was signed. */
  lemma {:induction false} LinesReconstructed(request: Request, parameters: map<string, string>, headers: seq<(string, string)>, parts: seq<string>)
    requires forall i :: 0 <= i < |headers| ==> MessagePart(request, parameters, headers[i].0) == Ok(Line(headers[i].0, headers[i].1))
    ensures MessageParts(request, parameters, Names(headers), parts) == Ok(parts + Lines(headers))
    decreases |headers|
  {
    if headers == [] {
      assert parts + Lines(headers) == parts;
    } else {
      var line := Line(headers[0].0, headers[0].1);
      LinesReconstructed(request, parameters, headers[1..], parts + [line]);
      assert Names(headers)[1..] == Names(headers[1..]);
      assert parts + [line] + Lines(headers[1..]) == parts + Lines(headers);
    }
  }

  lemma ParameterNames()
    ensures Letters("keyId") && Letters("algorithm") && Letters("headers") && Letters("signature")
    ensures PlainText(HTTP_SIGNATURE_ALGORITHM)
  {
  }

  lemma ParseFour(p: seq<string>, kv: seq<(string, string)>)
    requires |p| == |kv| == 4 && forall i :: 0 <= i < 4 ==> ParseParameter(p[i]) == Some(kv[i])
    ensures ParseParameters(p, map[])
            == Ok(map[][kv[0].0 := kv[0].1][kv[1].0 := kv[1].1][kv[2].0 := kv[2].1][kv[3].0 := kv[3].1])
  {
    var m1: map<string, string> := map[][kv[0].0 := kv[0].1];
    var m2 := m1[kv[1].0 := kv[1].1];
    var m3 := m2[kv[2].0 := kv[2].1];
    assert p[1..][1..] == p[2..] && p[2..][1..] == p[3..] && p[3..][1..] == [];
    assert ParseParameters(p, map[]) == ParseParameters(p[1..], m1);
    assert ParseParameters(p[1..], m1) == ParseParameters(p[2..], m2);
    assert ParseParameters(p[2..], m2) == ParseParameters(p[3..], m3);
    assert ParseParameters(p[3..], m3) == ParseParameters([], m3[kv[3].0 := kv[3].1]);
  }

  function ReadBack(keyId: string, names: string, signature: string): map<string, string> {
    map[]["keyId" := keyId]["algorithm" := HTTP_SIGNATURE_ALGORITHM]["headers" := names]["signature" := signature]
  }

  lemma EachParameterRoundTrips(keyId: string, names: string, signature: string)
    requires PlainText(names) && PlainText(signature) && keyId != "" && '\n' !in keyId
    ensures var p := SignatureParameters(keyId, names, signature);
            && ParseParameter(p[0]) == Some(("keyId", keyId))
            && ParseParameter(p[1]) == Some(("algorithm", HTTP_SIGNATURE_ALGORITHM))
            && ParseParameter(p[2]) == Some(("headers", names))
            && ParseParameter(p[3]) == Some(("signature", signature))
  {
    ParameterNames();
    ParameterRoundTrip("keyId", keyId);
    ParameterRoundTrip("algorithm", HTTP_SIGNATURE_ALGORITHM);
    ParameterRoundTrip("headers", names);
    ParameterRoundTrip("signature", signature);
  }

  /** The four parameters are read back, and no others. */
  lemma ParametersRoundTrip(keyId: string, names: string, signature: string)
    requires PlainText(names) && PlainText(signature) && keyId != "" && '\n' !in keyId
    ensures ParseParameters(SignatureParameters(keyId, names, signature), map[]) == Ok(ReadBack(keyId, names, signature))
  {
    EachParameterRoundTrips(keyId, names, signature);
    ParseFour(SignatureParameters(keyId, names, signature),
              [("keyId", keyId), ("algorithm", HTTP_SIGNATURE_ALGORITHM), ("headers", names), ("signature", signature)]);
  }

  lemma ReadBackEntries(keyId: string, names: string, signature: string)
    ensures var m := ReadBack(keyId, names, signature);
            && "keyId" in m && m["keyId"] == keyId
            && "headers" in m && m["headers"] == names
            && "signature" in m && m["signature"] == signature
            && "created" !in m && "expires" !in m
  {
  }

  lemma SentHeaders(verb: string, path: string, headers: SignatureHeaders)
    ensures var h := SentRequest(verb, path, headers).headers;
            && "host" in h && h["host"] == headers.host
            && "date" in h && h["date"] == headers.date
            && "signature" in h && h["signature"] == headers.signature
            && (headers.digest.Some? ==> "digest" in h && h["digest"] == headers.digest.value)
  {
  }

  lemma PartsSigned(c: Crypto, verb: string, path: string, host: string, now: int, body: string, keyId: string,
                    parameters: map<string, string>)
    requires LibrariesOk(c) && HeaderText(host)
    ensures var request := SentRequest(verb, path, Created(c, verb, path, host, now, body, keyId));
            var headers := SignedHeaders(verb, path, host, c.formatDate(now), BodyDigest(c, body));
            forall i :: 0 <= i < |headers| ==>
              && headers[i].0 in {"(request-target)", "host", "date", "digest"}
              && MessagePart(request, parameters, headers[i].0) == Ok(Line(headers[i].0, headers[i].1))
  {
    SentHeaders(verb, path, Created(c, verb, path, host, now, body, keyId));
    assert "host"[0] == 'h' && "date"[0] == 'd' && "digest"[0] == 'd' && "(created)"[0] == '(' && "(expires)"[0] == '(';
    if body != "" {
      assert HeaderText("SHA-256=") && HeaderText(c.digest(body));
    }
  }

  /** No request is parsed to a key id that is empty or contains a comma. */
  lemma ParsedKeyId(c: Crypto, request: Request)
    ensures var r := ParseSignature(c, request);
            r.Ok? ==>
              && "signature" in request.headers && HeaderText(request.headers["signature"])
              && r.value.keyId != "" && ',' !in r.value.keyId
  {
    if "signature" in request.headers && HeaderText(request.headers["signature"]) {
      var items := Split(request.headers["signature"], ',');
      SplitPieces(request.headers["signature"], ',');
      ParsedValues(items, map[]);
      var parameters := ParseParameters(items, map[]);
      if parameters.Ok? && "keyId" in parameters.value {
        assert parameters.value["keyId"] != "" && ',' !in parameters.value["keyId"];
      }
    }
  }

  /** What the steps of parsing amount to. */
  lemma ParsingSteps(c: Crypto, request: Request, parameters: map<string, string>, now: int, parts: seq<string>)
    requires "signature" in request.headers && HeaderText(request.headers["signature"])
    requires ParseParameters(Split(request.headers["signature"], ','), map[]) == Ok(parameters)
    requires "keyId" in parameters && "headers" in parameters && "signature" in parameters
    requires "created" !in parameters && "expires" !in parameters
    requires "date" in request.headers && HeaderText(request.headers["date"]) && c.parseDate(request.headers["date"]) == Some(now)
    requires MessageParts(request, parameters, Split(parameters["headers"], ' '), []) == Ok(parts)
    ensures ParseSignature(c, request)
            == Ok(SignatureData(parameters["keyId"], Join(parts, '\n'), parameters["signature"], now + SIGNATURE_EXPIRES_IN))
  {
  }

  lemma PlainKeyIdReturns(c: Crypto, verb: string, path: string, host: string, now: int, body: string, keyId: string)
    requires LibrariesOk(c) && HeaderText(host) && PlainText(keyId)
    ensures var message := SigningString(c, verb, path, host, now, body);
            ParseSignature(c, SentRequest(verb, path, Created(c, verb, path, host, now, body, keyId)))
            == Ok(SignatureData(keyId, message, c.sign(message), now + SIGNATURE_EXPIRES_IN))
  {
    var message, names := SigningString(c, verb, path, host, now, body), HeaderList(c, verb, path, host, now, body);
    var headers := SignedHeaders(verb, path, host, c.formatDate(now), BodyDigest(c, body));
    var created := Created(c, verb, path, host, now, body, keyId);
    var request := SentRequest(verb, path, created);
    var parameters := ReadBack(keyId, names, c.sign(message));
    SentHeaders(verb, path, created);
    PartsSigned(c, verb, path, host, now, body, keyId, parameters);
    HeaderListRoundTrip(headers);
    KeyIdInHeader(keyId, names, c.sign(message));
    SplitJoin(SignatureParameters(keyId, names, c.sign(message)), ',');
    ParametersRoundTrip(keyId, names, c.sign(message));
    ReadBackEntries(keyId, names, c.sign(message));
    LinesReconstructed(request, parameters, headers, []);
    assert [] + Lines(headers) == Lines(headers);
    ParsingSteps(c, request, parameters, now, Lines(headers));
  }

  /** The key id, the signed message and the signature come back exactly when the key id is a
      non-empty header text without a comma; the signature then expires twelve hours later. */
  lemma SignatureRoundTrip(c: Crypto, verb: string, path: string, host: string, now: int, body: string, keyId: string)
    requires LibrariesOk(c) && HeaderText(host)
    ensures var message := SigningString(c, verb, path, host, now, body);
            ParseSignature(c, SentRequest(verb, path, Created(c, verb, path, host, now, body, keyId)))
            == Ok(SignatureData(keyId, message, c.sign(message), now + SIGNATURE_EXPIRES_IN))
            <==> PlainText(keyId)
  {
    if PlainText(keyId) {
      PlainKeyIdReturns(c, verb, path, host, now, body, keyId);
    } else {
      var created := Created(c, verb, path, host, now, body, keyId);
      ParsedKeyId(c, SentRequest(verb, path, created));
      SentHeaders(verb, path, created);
      HeaderListRoundTrip(SignedHeaders(verb, path, host, c.formatDate(now), BodyDigest(c, body)));
      KeyIdInHeader(keyId, HeaderList(c, verb, path, host, now, body), c.sign(SigningString(c, verb, path, host, now, body)));
    }
  }

  /** The header is text exactly when the key id is; without a comma in the key id, the only
      commas are those between the parameters. */
  lemma KeyIdInHeader(keyId: string, names: string, signature: string)
    requires PlainText(names) && PlainText(signature)
    ensures HeaderText(Join(SignatureParameters(keyId, names, signature), ',')) <==> HeaderText(keyId)
    ensures ',' !in keyId ==>
              forall i :: 0 <= i < 4 ==> ',' !in SignatureParameters(keyId, names, signature)[i]
  {
    var p := SignatureParameters(keyId, names, signature);
    JoinKeepsText(p, ',');
    ParameterNames();
    ParameterText("keyId", keyId);
    ParameterText("algorithm", HTTP_SIGNATURE_ALGORITHM);
    ParameterText("headers", names);
    ParameterText("signature", signature);
  }

  lemma ParameterText(key: string, value: string)
    requires Letters(key)
    ensures HeaderText(Parameter(key, value)) <==> HeaderText(value)
    ensures ',' in Parameter(key, value) <==> ',' in value
  {
    assert forall c :: c in value ==> c in Parameter(key, value);
  }
}
