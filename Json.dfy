/**
 * The text of a persisted source list (`JSON.stringify` / `JSON.parse` on
 * an array of `{id, name, url}` objects), modelled as one compact canonical
 * spelling and a decoder that accepts exactly that spelling.  `JSON.parse`
 * accepts much more (whitespace between tokens, other key orders, extra
 * fields, other value types); the decoder rejects all of it.  Each encoder
 * writes its value in front of a given continuation `rest`.
 */
module Json {
  import opened Wrappers
  import opened JobSources
  import Text

  /** A JSON string literal (`"` and `\` backslash-escaped, line breaks as `\n` and `\r`), then `rest`. */
  function PutString(s: string, rest: string): string
  {
    "\"" + (Text.Escape(s, '"') + ("\"" + rest))
  }

  /** One `{"id":…,"name":…,"url":…}` object, then `rest`. */
  function PutSource(x: JobSource, rest: string): string
  {
    "{\"id\":" + PutString(x.id, ",\"name\":" + PutString(x.name, ",\"url\":" + PutString(x.url, "}" + rest)))
  }

  /** The elements of a non-empty array separated by commas, then `rest`. */
  function PutItems(xs: seq<JobSource>, rest: string): string
    requires xs != []
  {
    if |xs| == 1 then PutSource(xs[0], rest) else PutSource(xs[0], "," + PutItems(xs[1..], rest))
  }

  /** `JSON.stringify(sources)`: `[]` for no sources, otherwise an array of objects. */
  function Encode(xs: seq<JobSource>): (t: string)
    ensures t == "[]" <==> xs == []
    ensures xs != [] ==> |t| > 2 && t[..2] == "[{"
  {
    if xs == [] then "[]"
    else
      PutItemsStart(xs, "]");
      "[" + PutItems(xs, "]")
  }

  /** A string literal at the start of `s`, and what follows it. */
  function DecodeString(s: string): (r: Option<(string, string)>)
    ensures r.Some? ==> |r.value.1| < |s|
  {
    var body :- Text.ExpectPrefix("\"", s);
    Text.ReadQuoted(body, '"')
  }

  function DecodeSource(s: string): (r: Option<(JobSource, string)>)
    ensures r.Some? ==> |r.value.1| < |s|
  {
    var r1 :- Text.ExpectPrefix("{\"id\":", s);
    var (id, r2) :- DecodeString(r1);
    var r3 :- Text.ExpectPrefix(",\"name\":", r2);
    var (name, r4) :- DecodeString(r3);
    var r5 :- Text.ExpectPrefix(",\"url\":", r4);
    var (url, r6) :- DecodeString(r5);
    var r7 :- Text.ExpectPrefix("}", r6);
    Some((JobSource(id, name, url), r7))
  }

  /** The elements of a non-empty array and its closing bracket, which must end the text. */
  function DecodeItems(s: string): (r: Option<seq<JobSource>>)
    ensures r.Some? ==> r.value != []
    decreases |s|
  {
    var (x, rest) :- DecodeSource(s);
    if rest == "]" then Some([x])
    else
      var more :- Text.ExpectPrefix(",", rest);
      var xs :- DecodeItems(more);
      Some([x] + xs)
  }

  /**
   * `JSON.parse(text)` read as a source list, in the canonical spelling
   * only: None for any other text, including valid JSON spelled differently.
   */
  function Decode(t: string): (r: Option<seq<JobSource>>)
    ensures r == Some([]) <==> t == "[]"
    ensures r.Some? ==> |t| >= 2 && t[0] == '['
  {
    if t == "[]" then Some([])
    else
      var body :- Text.ExpectPrefix("[", t);
      DecodeItems(body)
  }

  // ---------------------------------------------------------------------------
  // Round trip

  lemma DecodeStringOf(x: string, rest: string)
    ensures DecodeString(PutString(x, rest)) == Some((x, rest))
  {
    var body := Text.Escape(x, '"') + ("\"" + rest);
    Text.ExpectPrefixOf("\"", body);
    Text.ReadEscaped(x, '"', rest);
  }

  lemma DecodeSourceOf(x: JobSource, rest: string)
    ensures DecodeSource(PutSource(x, rest)) == Some((x, rest))
  {
    var r6 := "}" + rest;
    var r5 := PutString(x.url, r6);
    var r4 := ",\"url\":" + r5;
    var r3 := PutString(x.name, r4);
    var r2 := ",\"name\":" + r3;
    var r1 := PutString(x.id, r2);
    Text.ExpectPrefixOf("{\"id\":", r1);
    DecodeStringOf(x.id, r2);
    Text.ExpectPrefixOf(",\"name\":", r3);
    DecodeStringOf(x.name, r4);
    Text.ExpectPrefixOf(",\"url\":", r5);
    DecodeStringOf(x.url, r6);
    Text.ExpectPrefixOf("}", rest);
  }

  lemma {:induction false} DecodeItemsOf(xs: seq<JobSource>)
    requires xs != []
    ensures DecodeItems(PutItems(xs, "]")) == Some(xs)
  {
    if |xs| == 1 {
      DecodeSourceOf(xs[0], "]");
      assert [xs[0]] == xs;
    } else {
      var tail := PutItems(xs[1..], "]");
      DecodeSourceOf(xs[0], "," + tail);
      assert "," + tail != "]";
      Text.ExpectPrefixOf(",", tail);
      DecodeItemsOf(xs[1..]);
      assert [xs[0]] + xs[1..] == xs;
    }
  }

  /** Whatever list is encoded decodes back to itself. */
  lemma DecodeEncode(xs: seq<JobSource>)
    ensures Decode(Encode(xs)) == Some(xs)
  {
    if xs != [] {
      var items := PutItems(xs, "]");
      assert Encode(xs)[1] == '{' by {
        PutItemsStart(xs, "]");
      }
      Text.ExpectPrefixOf("[", items);
      DecodeItemsOf(xs);
    }
  }

  lemma PutItemsStart(xs: seq<JobSource>, rest: string)
    requires xs != []
    ensures |PutItems(xs, rest)| > 0 && PutItems(xs, rest)[0] == '{'
  {
  }

  // ---------------------------------------------------------------------------
  // Canonicity: only encoder outputs decode

  lemma DecodeStringCanonical(s: string)
    requires DecodeString(s).Some?
    ensures s == PutString(DecodeString(s).value.0, DecodeString(s).value.1)
  {
    var body := s[1..];
    Text.ReadQuotedCanonical(body, '"');
    assert s == "\"" + body;
  }

  lemma DecodeSourceCanonical(s: string)
    requires DecodeSource(s).Some?
    ensures s == PutSource(DecodeSource(s).value.0, DecodeSource(s).value.1)
  {
    var r1 := Text.ExpectPrefix("{\"id\":", s).value;
    DecodeStringCanonical(r1);
    var (id, r2) := DecodeString(r1).value;
    var r3 := Text.ExpectPrefix(",\"name\":", r2).value;
    DecodeStringCanonical(r3);
    var (name, r4) := DecodeString(r3).value;
    var r5 := Text.ExpectPrefix(",\"url\":", r4).value;
    DecodeStringCanonical(r5);
    var (url, r6) := DecodeString(r5).value;
    var r7 := Text.ExpectPrefix("}", r6).value;
    assert DecodeSource(s) == Some((JobSource(id, name, url), r7));
  }

  lemma {:induction false} DecodeItemsCanonical(s: string)
    requires DecodeItems(s).Some?
    ensures s == PutItems(DecodeItems(s).value, "]")
    decreases |s|
  {
    DecodeSourceCanonical(s);
    var (x, rest) := DecodeSource(s).value;
    if rest != "]" {
      var more := Text.ExpectPrefix(",", rest).value;
      DecodeItemsCanonical(more);
      var xs := DecodeItems(more).value;
      assert DecodeItems(s).value == [x] + xs;
      assert ([x] + xs)[1..] == xs;
    }
  }

  /** A text decodes to a list exactly when it is that list's encoding. */
  lemma DecodeIffEncode(t: string, xs: seq<JobSource>)
    ensures Decode(t) == Some(xs) <==> t == Encode(xs)
  {
    if t == Encode(xs) {
      DecodeEncode(xs);
    }
    if Decode(t) == Some(xs) && t != "[]" {
      DecodeItemsCanonical(t[1..]);
      assert t == "[" + t[1..];
    }
  }

  /** The text a fresh data file is created with is the empty list. */
  lemma EmptyArrayText()
    ensures Encode([]) == "[]" && Decode("[]") == Some([])
  {
  }
}
