/** Request handling of backend/src/server.c: the query-parameter copy
    loop of get_query_param and the response handle_client chooses. The
    socket, `read`, `write` and `close` are not modelled: the request is the
    bytes `read` returned, and the reply is the text written back. */
module Server {
  import opened Wrappers
  import opened History
  import opened JsonBody
  import opened CText

  /** The size of the `span` buffer handle_client passes to
      get_query_param. */
  const SpanBufferSize: int := 16

  /** The size of the `key` buffer of get_query_param. */
  const KeyBufferSize: int := 64

  /** What C string functions see in a buffer: the text before its first
      NUL. */
  function CStr(s: seq<char>): (r: string)
    ensures '\0' !in r
    ensures |r| <= |s| && r == s[..|r|]
    ensures |r| < |s| ==> s[|r|] == '\0'
  {
    if s == [] || s[0] == '\0' then [] else [s[0]] + CStr(s[1..])
  }

  lemma {:induction false} CStrOfTerminated(v: string, tail: seq<char>)
    requires '\0' !in v
    ensures CStr(v + ['\0'] + tail) == v
  {
    if v != [] {
      assert (v + ['\0'] + tail)[1..] == v[1..] + ['\0'] + tail;
      CStrOfTerminated(v[1..], tail);
    }
  }

  predicate OccursAt(s: string, key: string, i: int) {
    0 <= i && i + |key| <= |s| && s[i..i + |key|] == key
  }

  /** strstr: the first position at or after `from` where `key` occurs. */
  function IndexFrom(s: string, key: string, from: nat): (r: Option<nat>)
    decreases |s| - from
    ensures r.Some? ==> from <= r.value && OccursAt(s, key, r.value)
    ensures r.Some? ==> forall j :: from <= j < r.value ==> !OccursAt(s, key, j)
    ensures r.None? ==> forall j :: from <= j ==> !OccursAt(s, key, j)
  {
    if from + |key| > |s| then None
    else if s[from..from + |key|] == key then Some(from)
    else IndexFrom(s, key, from + 1)
  }

  function IndexOf(s: string, key: string): (r: Option<nat>)
    ensures r.Some? ==> OccursAt(s, key, r.value) && forall j :: 0 <= j < r.value ==> !OccursAt(s, key, j)
    ensures r.None? ==> forall j :: !OccursAt(s, key, j)
  {
    IndexFrom(s, key, 0)
  }

  /** snprintf(key, sizeof(key), "%s=", param): the name and '=', cut to
      the 63 characters the buffer holds. */
  function QueryKey(param: string): (key: string)
    ensures |key| <= KeyBufferSize - 1
    ensures |param| < KeyBufferSize - 1 ==> key == param + "="
  {
    var full := param + "=";
    if |full| <= KeyBufferSize - 1 then full else full[..KeyBufferSize - 1]
  }

  predicate Stops(c: char) {
    c == ' ' || c == '&'
  }

  /** The characters copied from `rest`: up to a space, '&', the end of the
      string or `limit` characters. */
  function TakeValue(rest: string, limit: int): string {
    if limit <= 0 || rest == [] || Stops(rest[0]) then []
    else [rest[0]] + TakeValue(rest[1..], limit - 1)
  }

  /** The value get_query_param leaves in a buffer of `maxLen` bytes. */
  function ParamValue(request: string, param: string, maxLen: int): string {
    var key := QueryKey(param);
    match IndexOf(request, key)
    case None => ""
    case Some(i) => TakeValue(request[i + |key|..], maxLen - 1)
  }

  /** The copied value is a prefix of the text after the key that holds no
      space or '&', has at most `limit` characters, and stops only at the
      limit, at the end of the text, or at a space or '&'. */
  lemma {:induction false} TakeValueSpec(rest: string, limit: int)
    ensures var v := TakeValue(rest, limit);
      && |v| <= |rest| && v == rest[..|v|]
      && (limit >= 0 ==> |v| <= limit) && (limit <= 0 ==> v == [])
      && (forall k :: 0 <= k < |v| ==> !Stops(v[k]))
      && (|v| >= limit || |v| == |rest| || Stops(rest[|v|]))
  {
    if !(limit <= 0 || rest == [] || Stops(rest[0])) {
      TakeValueSpec(rest[1..], limit - 1);
    }
  }

  /** When the characters before position `i` are no stop characters and
      the copy ends at `i`, the copied value is exactly `rest[..i]`. */
  lemma {:induction false} TakeValueExact(rest: string, limit: int, i: nat)
    requires i <= |rest| && i <= limit
    requires forall k :: 0 <= k < i ==> !Stops(rest[k])
    requires i == limit || i == |rest| || Stops(rest[i])
    ensures TakeValue(rest, limit) == rest[..i]
  {
    if i > 0 {
      TakeValueExact(rest[1..], limit - 1, i - 1);
      assert rest[..i] == [rest[0]] + rest[1..][..i - 1];
    }
  }

  /** What get_query_param extracts. Without an occurrence of the key, the
      value is empty. Otherwise it is taken from the text right after the
      first occurrence: a prefix of that text with no space or '&', at most
      `maxLen - 1` characters long, that ends only at the limit, at the end
      of the request, or before a space or '&'. */
  lemma ParamValueSpec(request: string, param: string, maxLen: int)
    requires maxLen >= 1
    ensures var v := ParamValue(request, param, maxLen);
      var key := QueryKey(param);
      && |v| <= maxLen - 1
      && (forall k :: 0 <= k < |v| ==> !Stops(v[k]))
      && ('\0' !in request ==> '\0' !in v)
      && (IndexOf(request, key).None? ==> v == "")
      && (IndexOf(request, key).Some? ==>
            var rest := request[IndexOf(request, key).value + |key|..];
            && |v| <= |rest| && v == rest[..|v|]
            && (|v| == maxLen - 1 || |v| == |rest| || Stops(rest[|v|])))
  {
    var key := QueryKey(param);
    if IndexOf(request, key).Some? {
      var rest := request[IndexOf(request, key).value + |key|..];
      TakeValueSpec(rest, maxLen - 1);
      var v := ParamValue(request, param, maxLen);
      assert forall c :: c in v ==> c in rest;
      assert forall c :: c in rest ==> c in request;
    }
  }

  /** Overwriting the first element after a prefix. */
  lemma Overwrite(pre: seq<char>, tail: seq<char>, c: char)
    requires |tail| >= 1
    ensures (pre + tail)[|pre| := c] == pre + [c] + tail[1..]
  {
  }

  /** The copy loop of get_query_param: copies characters of `rest` into
      `value` until a space, '&', the end of the text or `limit`
      characters, then writes the terminator. */
  method CopyValue(rest: string, value: array<char>, limit: int)
    requires 0 <= limit < value.Length
    modifies value
    ensures var v := TakeValue(rest, limit);
      && |v| <= limit
      && value[..] == v + ['\0'] + old(value[..])[|v| + 1..]
  {
    ghost var initial := value[..];
    var i := 0;
    while i < limit && i < |rest| && rest[i] != ' ' && rest[i] != '&'
      invariant 0 <= i <= limit && i <= |rest|
      invariant forall k :: 0 <= k < i ==> !Stops(rest[k])
      invariant forall k :: 0 <= k < i ==> value[k] == rest[k]
      invariant forall k :: i <= k < value.Length ==> value[k] == initial[k]
    {
      value[i] := rest[i];
      i := i + 1;
    }
    TakeValueExact(rest, limit, i);
    value[i] := '\0';
    assert value[..] == rest[..i] + ['\0'] + initial[i + 1..];
  }

  /** get_query_param: finds the first `param=` in the request and copies
      the value after it into `value`, or stores the empty string. */
  method GetQueryParam(request: string, param: string, value: array<char>, maxLen: int)
    requires '\0' !in request
    requires 1 <= maxLen <= value.Length
    modifies value
    ensures var v := ParamValue(request, param, maxLen);
      && |v| < maxLen
      && value[..] == v + ['\0'] + old(value[..])[|v| + 1..]
  {
    var key := QueryKey(param);
    var found := IndexOf(request, key);
    if found.Some? {
      var start := found.value + |key|;
      CopyValue(request[start..], value, maxLen - 1);
    } else {
      Overwrite([], value[..], '\0');
      value[0] := '\0';
    }
  }

  /** The span handle_client passes on has at most 15 characters; without
      "span=" in the request the "realtime" default is overwritten with "",
      which selects the same window as "1m". */
  lemma SpanParam(request: string, now: int)
    ensures |ParamValue(request, "span", SpanBufferSize)| <= SpanBufferSize - 1
    ensures IndexOf(request, "span=").None? ==>
      && ParamValue(request, "span", SpanBufferSize) == ""
      && SpanWindow(ParamValue(request, "span", SpanBufferSize), now) == SpanWindow("1m", now)
  {
    assert QueryKey("span") == "span=";
    ParamValueSpec(request, "span", SpanBufferSize);
  }

  // ---------------------------------------------------------------------
  // Responses
  // ---------------------------------------------------------------------

  /** What handle_client does with the connection: close it without a
      reply, or write a reply with the given status. */
  datatype Reply = Closed | Sent(status: nat, text: string)

  const NoContent: string :=
    "HTTP/1.1 204 No Content\r\nAccess-Control-Allow-Origin: *\r\n"
    + "Access-Control-Allow-Methods: GET, OPTIONS\r\nAccess-Control-Allow-Headers: Content-Type\r\n\r\n"

  const ServerError: string :=
    "HTTP/1.1 500 Internal Server Error\r\nAccess-Control-Allow-Origin: *\r\n\r\n{\"error\":\"db error\"}"

  const NotFound: string := "HTTP/1.1 404 Not Found\r\nAccess-Control-Allow-Origin: *\r\n\r\n"

  const OkPrefix: string :=
    "HTTP/1.1 200 OK\r\nContent-Type: application/json\r\nAccess-Control-Allow-Origin: *\r\nContent-Length: "

  function Digit(d: int): (c: char)
    requires 0 <= d < 10
    ensures IsDigit(c) && c as int - '0' as int == d
  {
    ('0' as int + d) as char
  }

  /** `%lu`: the decimal digits of a number. */
  function Decimal(n: nat): string
    decreases n
  {
    if n < 10 then [Digit(n)] else Decimal(n / 10) + [Digit(n % 10)]
  }

  /** The number a string of decimal digits denotes. */
  function DecimalValue(s: string): nat
    requires forall k :: 0 <= k < |s| ==> IsDigit(s[k])
  {
    if s == [] then 0
    else
      var last := s[|s| - 1];
      assert IsDigit(last);
      DecimalValue(s[..|s| - 1]) * 10 + (last as int - '0' as int)
  }

  /** Reading the Content-Length digits back gives the number written. */
  lemma {:induction false} DecimalRoundTrip(n: nat)
    ensures Decimal(n) != [] && forall k :: 0 <= k < |Decimal(n)| ==> IsDigit(Decimal(n)[k])
    ensures DecimalValue(Decimal(n)) == n
  {
    if n >= 10 {
      var q, d := n / 10, n % 10;
      assert n == q * 10 + d;
      DecimalRoundTrip(q);
      var s := Decimal(n);
      assert s == Decimal(q) + [Digit(d)];
      assert s[..|s| - 1] == Decimal(q);
    }
  }

  /** The header of a 200 reply, announcing `length` body bytes. */
  function OkHeader(length: nat): string {
    OkPrefix + Decimal(length) + "\r\n\r\n"
  }

  /** On a 200 the Content-Length header holds the body's length: the
      digits between the prefix and the blank line denote `|body|`, and the
      body follows the blank line. */
  lemma ContentLengthMatches(body: string)
    ensures var text := OkHeader(|body|) + body;
      var digits := Decimal(|body|);
      && text == OkPrefix + digits + "\r\n\r\n" + body
      && (forall k :: 0 <= k < |digits| ==> IsDigit(digits[k]))
      && DecimalValue(digits) == |body|
  {
    DecimalRoundTrip(|body|);
  }

  /** When no row text holds a NUL, the body written is the whole JSON
      array. */
  lemma {:induction false} BodyIsWholeArray(texts: seq<string>)
    requires forall t :: t in texts ==> '\0' !in t
    ensures CStr(JsonArray(texts)) == JsonArray(texts)
  {
    JoinHasNoNul(texts);
    var s := JsonArray(texts);
    assert '\0' !in s;
    CStrWhole(s);
  }

  lemma {:induction false} JoinHasNoNul(texts: seq<string>)
    requires forall t :: t in texts ==> '\0' !in t
    ensures '\0' !in Join(texts)
  {
    if |texts| > 1 {
      var init := texts[..|texts| - 1];
      assert forall t :: t in init ==> t in texts;
      JoinHasNoNul(init);
      assert texts[|texts| - 1] in texts;
    } else if |texts| == 1 {
      assert texts[0] in texts;
    }
  }

  lemma {:induction false} CStrWhole(s: string)
    requires '\0' !in s
    ensures CStr(s) == s
  {
    if s != [] {
      assert s[0] in s;
      assert forall c :: c in s[1..] ==> c in s;
      CStrWhole(s[1..]);
    }
  }

  /** handle_client. An empty or failed read closes the connection. A
      request starting with "OPTIONS" gets a 204, whatever follows. One
      starting with "GET /api/history" gets the history of its `span`
      parameter: a 200 whose Content-Length is the body's length when the
      query produced a body, a 500 otherwise. Every other request gets a
      404. */
  method HandleClient(received: seq<char>, db: Option<seq<Sample>>, prepared: bool, now: int,
                      format: Row -> string)
    returns (reply: Reply)
    ensures received == [] ==> reply == Closed
    ensures received != [] && StartsWith(CStr(received), "OPTIONS") ==> reply == Sent(204, NoContent)
    ensures (received != [] && !StartsWith(CStr(received), "OPTIONS")
             && StartsWith(CStr(received), "GET /api/history")) ==>
      var span := ParamValue(CStr(received), "span", SpanBufferSize);
      if db.Some? && prepared then
        var body := CStr(JsonArray(Texts(Query(db.value, span, now), format)));
        reply == Sent(200, OkHeader(|body|) + body)
      else reply == Sent(500, ServerError)
    ensures (received != [] && !StartsWith(CStr(received), "OPTIONS")
             && !StartsWith(CStr(received), "GET /api/history")) ==> reply == Sent(404, NotFound)
  {
    if received == [] {
      return Closed;
    }
    var request := CStr(received);
    if StartsWith(request, "OPTIONS") {
      return Sent(204, NoContent);
    }
    if StartsWith(request, "GET /api/history") {
      var spanBuffer := new char[SpanBufferSize](k => if k < 8 then "realtime"[k] else '\0');
      GetQueryParam(request, "span", spanBuffer, SpanBufferSize);
      ghost var v := ParamValue(request, "span", SpanBufferSize);
      ParamValueSpec(request, "span", SpanBufferSize);
      CStrOfTerminated(v, spanBuffer[..][|v| + 1..]);
      assert spanBuffer[..] == v + ['\0'] + spanBuffer[..][|v| + 1..];
      var span := CStr(spanBuffer[..]);
      var json := DbQueryHistory(db, prepared, span, now, format);
      if json.Some? {
        var body := CStr(json.value);
        return Sent(200, OkHeader(|body|) + body);
      }
      return Sent(500, ServerError);
    }
    return Sent(404, NotFound);
  }
}
