/** The JSON text db_query_history builds (backend/src/db.c): a growable
    character buffer (`json_append`) and the row loop that writes `[`, the
    row objects separated by commas, and `]`. Number formatting by
    `vsnprintf` is not modelled: each row's text is an input. */
module JsonBody {
  import opened Wrappers
  import opened History

  /** The row texts separated by commas. */
  function Join(texts: seq<string>): string {
    if texts == [] then ""
    else if |texts| == 1 then texts[0]
    else Join(texts[..|texts| - 1]) + "," + texts[|texts| - 1]
  }

  /** The body of a history response. */
  function JsonArray(texts: seq<string>): string {
    "[" + Join(texts) + "]"
  }

  function TotalLength(texts: seq<string>): nat {
    if texts == [] then 0 else TotalLength(texts[..|texts| - 1]) + |texts[|texts| - 1]|
  }

  function Count(s: string, c: char): nat {
    if s == [] then 0 else Count(s[..|s| - 1], c) + (if s[|s| - 1] == c then 1 else 0)
  }

  lemma {:induction false} CountAppend(a: string, b: string, c: char)
    ensures Count(a + b, c) == Count(a, c) + Count(b, c)
  {
    if b == [] {
      assert a + b == a;
    } else {
      assert (a + b)[..|a + b| - 1] == a + b[..|b| - 1];
      CountAppend(a, b[..|b| - 1], c);
    }
  }

  /** The commas of the row texts, summed. */
  function CommasIn(texts: seq<string>): nat {
    if texts == [] then 0 else CommasIn(texts[..|texts| - 1]) + Count(texts[|texts| - 1], ',')
  }

  /** The body starts with '[' and ends with ']'; zero rows give "[]";
      its length is the rows' lengths plus the brackets plus one comma
      between each two rows. */
  lemma {:induction false} JsonArrayShape(texts: seq<string>)
    ensures var body := JsonArray(texts);
      && |body| >= 2 && body[0] == '[' && body[|body| - 1] == ']'
      && (texts == [] ==> body == "[]")
    ensures |JsonArray(texts)| == 2 + TotalLength(texts) + (if texts == [] then 0 else |texts| - 1)
  {
    JoinLength(texts);
  }

  lemma {:induction false} JoinLength(texts: seq<string>)
    ensures |Join(texts)| == TotalLength(texts) + (if texts == [] then 0 else |texts| - 1)
  {
    if |texts| > 1 {
      JoinLength(texts[..|texts| - 1]);
    }
  }

  /** Besides the commas inside the row texts, the body holds exactly one
      comma between each two rows: n - 1 separators for n rows. */
  lemma {:induction false} JsonArrayCommas(texts: seq<string>)
    ensures Count(JsonArray(texts), ',') == CommasIn(texts) + (if texts == [] then 0 else |texts| - 1)
  {
    JoinCommas(texts);
    CountAppend("[", Join(texts), ',');
    CountAppend("[" + Join(texts), "]", ',');
    assert Count("[", ',') == 0 by { assert "["[..0] == []; }
    assert Count("]", ',') == 0 by { assert "]"[..0] == []; }
  }

  lemma {:induction false} JoinCommas(texts: seq<string>)
    ensures Count(Join(texts), ',') == CommasIn(texts) + (if texts == [] then 0 else |texts| - 1)
  {
    if |texts| == 1 {
      assert texts[..0] == [];
    } else if |texts| > 1 {
      var init := texts[..|texts| - 1];
      JoinCommas(init);
      CountAppend(Join(init), ",", ',');
      CountAppend(Join(init) + ",", texts[|texts| - 1], ',');
      assert Count(",", ',') == 1 by { assert ","[..0] == []; }
    }
  }

  /** The buffer db_query_history grows with json_append: `buf` is the
      allocation, `cap` its size and `len` the length of the text so far. */
  class JsonBuffer {
    var buf: array<char>
    var len: nat
    var cap: nat

    ghost predicate Valid()
      reads this
    {
      cap == buf.Length && len < cap
    }

    function Text(): string
      reads this, buf
      requires Valid()
    {
      buf[..len]
    }

    /** The 4096-byte allocation holding "[". */
    constructor ()
      ensures Valid() && fresh(buf)
      ensures Text() == "[" && cap == 4096
    {
      buf := new char[4096];
      cap := 4096;
      len := 0;
      new;
      buf[0] := '[';
      len := 1;
    }

    /** json_append, with `text` the output of the format: when the text and
        its terminator do not fit, the allocation becomes twice the old
        capacity plus the needed size (old contents kept); the text and a
        terminator are written after the current text, and `len` grows by
        the text's length. */
    method Append(text: string)
      requires Valid()
      modifies this, buf
      ensures Valid() && (buf == old(buf) || fresh(buf))
      ensures Text() == old(Text()) + text
      ensures len == old(len) + |text|
      ensures cap == if old(len) + |text| + 1 >= old(cap) then (old(cap) + |text| + 1) * 2 else old(cap)
      ensures old(cap) <= cap && len + 1 < cap
      ensures buf[len] == '\0'
    {
      var needed := |text| + 1;
      Reserve(needed);
      Write(text);
    }

    /** The capacity check of json_append: reallocates to
        `(cap + needed) * 2` when `len + needed >= cap`. */
    method Reserve(needed: nat)
      requires Valid()
      modifies this
      ensures Valid() && (buf == old(buf) || fresh(buf))
      ensures len == old(len) && Text() == old(Text())
      ensures cap == if old(len) + needed >= old(cap) then (old(cap) + needed) * 2 else old(cap)
      ensures len + needed < cap
    {
      if len + needed >= cap {
        var newCap := (cap + needed) * 2;
        var grown := new char[newCap];
        var j := 0;
        while j < buf.Length
          invariant 0 <= j <= buf.Length
          invariant grown[..j] == buf[..j]
          modifies grown
        {
          grown[j] := buf[j];
          j := j + 1;
        }
        assert grown[..len] == buf[..len];
        buf, cap := grown, newCap;
      }
    }

    /** The formatted write of json_append: the text and its terminator go
        right after the current text. */
    method Write(text: string)
      requires Valid() && len + |text| + 1 < cap
      modifies this`len, buf
      ensures Valid() && buf == old(buf) && cap == old(cap)
      ensures Text() == old(Text()) + text
      ensures len == old(len) + |text| && buf[len] == '\0'
    {
      var i := 0;
      while i < |text|
        invariant 0 <= i <= |text|
        invariant len == old(len)
        invariant buf[..len] == old(Text())
        invariant buf[len..len + i] == text[..i]
      {
        buf[len + i] := text[i];
        i := i + 1;
        assert buf[len..len + i] == buf[len..len + i - 1] + [text[i - 1]];
      }
      ghost var written := buf[..len + |text|];
      assert written == old(Text()) + text by {
        assert text[..i] == text;
        assert buf[..len + |text|] == buf[..len] + buf[len..len + |text|];
      }
      buf[len + |text|] := '\0';
      assert buf[..len + |text|] == written;
      len := len + |text|;
    }
  }

  /** The row loop of db_query_history: "[", each row's text preceded by a
      comma except the first, then "]". */
  method AssembleBody(texts: seq<string>) returns (json: string)
    ensures json == JsonArray(texts)
  {
    var b := new JsonBuffer();
    var first := true;
    var i := 0;
    while i < |texts|
      invariant 0 <= i <= |texts|
      invariant fresh(b) && fresh(b.buf) && b.Valid()
      invariant b.Text() == "[" + Join(texts[..i])
      invariant first <==> i == 0
    {
      assert texts[..i + 1][..i] == texts[..i];
      if !first {
        b.Append(",");
      }
      first := false;
      b.Append(texts[i]);
      i := i + 1;
    }
    b.Append("]");
    assert texts[..i] == texts;
    json := b.Text();
  }

  function Texts(rows: seq<Row>, format: Row -> string): (texts: seq<string>)
    ensures |texts| == |rows|
    ensures forall i :: 0 <= i < |rows| ==> texts[i] == format(rows[i])
  {
    seq(|rows|, i requires 0 <= i < |rows| => format(rows[i]))
  }

  /** db_query_history: no text (NULL) when the database is not open or the
      statement cannot be prepared; otherwise the JSON array of the query's
      rows, which is "[]" when there are none. */
  method DbQueryHistory(db: Option<seq<Sample>>, prepared: bool, span: string, now: int, format: Row -> string)
    returns (json: Option<string>)
    ensures json.None? <==> db.None? || !prepared
    ensures json.Some? ==> json.value == JsonArray(Texts(Query(db.value, span, now), format))
    ensures json.Some? && Query(db.value, span, now) == [] ==> json.value == "[]"
  {
    if db.None? || !prepared {
      return None;
    }
    var rows := Query(db.value, span, now);
    var body := AssembleBody(Texts(rows, format));
    json := Some(body);
  }
}
