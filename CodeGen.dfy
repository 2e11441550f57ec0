/**
 * The two generators that print a source list as the TypeScript array
 * literal `const defaultSources = [ … ];` for pasting back into the page:
 * `updateSourcesInCode` prints each id bare, `generateSourceCode` wraps it in
 * single quotes.  Names and urls have each `'` escaped as `\'`; nothing else
 * is escaped.  A reader for the printed text checks what the output means.
 */
module CodeGen {
  import opened Wrappers
  import opened JobSources
  import Text

  /** How a block prints the id: bare (`updateSourcesInCode`) or single-quoted (`generateSourceCode`). */
  datatype IdStyle = Bare | Quoted

  const Header: string := "const defaultSources = [\n"
  const Footer: string := "\n  ];"

  /** `s.replace(/'/g, "\\'")`: one backslash before every single quote. */
  function EscapeQuotes(s: string): (r: string)
    ensures |r| >= |s|
  {
    if s == [] then []
    else (if s[0] == '\'' then ['\\', '\''] else [s[0]]) + EscapeQuotes(s[1..])
  }

  function IdText(id: string, style: IdStyle): string
  {
    match style
    case Bare => id
    case Quoted => "'" + (id + "'")
  }

  /** One `{ id, name, url }` block, up to the end of the escaped url. */
  function BlockHead(x: JobSource, style: IdStyle): string
  {
    "    {\n      id: " + IdText(x.id, style) + ",\n      name: '" + EscapeQuotes(x.name) + "'"
      + ",\n      url: '" + EscapeQuotes(x.url)
  }

  /** The url's closing quote, the comma that every block but the last carries, the closing brace. */
  function BlockEnd(last: bool): string
  {
    "'" + (if last then "" else ",") + "\n    }"
  }

  function Block(x: JobSource, style: IdStyle, last: bool): string
  {
    BlockHead(x, style) + BlockEnd(last)
  }

  /** `sources.map((source, index) => …)`: the block of each source, the last one marked. */
  function Blocks(xs: seq<JobSource>, style: IdStyle): (r: seq<string>)
    ensures |r| == |xs|
  {
    seq(|xs|, i requires 0 <= i < |xs| => Block(xs[i], style, i == |xs| - 1))
  }

  /** `.join('')`: the parts one after another, so each part fits inside the whole. */
  function Join(parts: seq<string>): (r: string)
    ensures parts != [] ==> parts[0] <= r
    ensures forall i :: 0 <= i < |parts| ==> |parts[i]| <= |r|
  {
    if parts == [] then ""
    else
      var r := parts[0] + Join(parts[1..]);
      assert forall i :: 1 <= i < |parts| ==> parts[i] == parts[1..][i - 1];
      r
  }

  /** Joining two lists of parts is joining each and concatenating the results. */
  lemma {:induction false} JoinAppend(a: seq<string>, b: seq<string>)
    ensures Join(a + b) == Join(a) + Join(b)
  {
    if a == [] {
      assert a + b == b;
    } else {
      assert (a + b)[1..] == a[1..] + b;
      JoinAppend(a[1..], b);
      Text.Assoc(a[0], Join(a[1..]), Join(b));
    }
  }

  function SourcesCode(xs: seq<JobSource>, style: IdStyle): string
  {
    Header + (Join(Blocks(xs, style)) + Footer)
  }

  /** `updateSourcesInCode(sources)` (its console output is not modelled). */
  function UpdateSourcesInCode(sources: seq<JobSource>): (code: string)
    ensures Header <= code
    ensures sources == [] ==> code == "const defaultSources = [\n\n  ];"
  {
    SourcesCode(sources, Bare)
  }

  /** `generateSourceCode()` of the code-updater card, over its `sources` prop. */
  function GenerateSourceCode(sources: seq<JobSource>): (code: string)
    ensures Header <= code
    ensures sources == [] ==> code == "const defaultSources = [\n\n  ];"
  {
    SourcesCode(sources, Quoted)
  }

  // ---------------------------------------------------------------------------
  // Structure of the output

  /** The blocks after the first are the blocks of the remaining sources. */
  lemma BlocksTail(xs: seq<JobSource>, style: IdStyle)
    requires xs != []
    ensures Blocks(xs, style)[0] == Block(xs[0], style, |xs| == 1)
    ensures Blocks(xs, style)[1..] == Blocks(xs[1..], style)
  {
    var bs, ts := Blocks(xs, style), Blocks(xs[1..], style);
    forall i | 0 <= i < |ts|
      ensures bs[1..][i] == ts[i]
    {
      assert xs[1..][i] == xs[i + 1];
    }
  }

  /** Exactly the blocks before the last carry the trailing comma. */
  lemma TrailingComma(xs: seq<JobSource>, style: IdStyle, i: nat)
    requires i < |xs|
    ensures var b := Blocks(xs, style)[i];
      |b| >= 8 && (b[|b| - 8..] == "',\n    }" <==> i < |xs| - 1)
  {
    var b := Blocks(xs, style)[i];
    var h := BlockHead(xs[i], style);
    var e := BlockEnd(i == |xs| - 1);
    assert b == h + e;
    assert |h| >= 1;
    if i == |xs| - 1 {
      assert e == "'\n    }";
      assert b[|b| - 7] == e[0] == '\'';
    } else {
      assert e == "',\n    }";
      assert b[|b| - 8..] == e;
    }
  }

  /** The escaping adds exactly one backslash before each quote: dropping those gives the input back. */
  lemma {:induction false} EscapeQuotesInverse(s: string)
    ensures Unescape(EscapeQuotes(s)) == s
  {
    if s != [] {
      EscapeQuotesInverse(s[1..]);
      if s[0] == '\'' {
        assert EscapeQuotes(s) == ['\\', '\''] + EscapeQuotes(s[1..]);
        assert EscapeQuotes(s)[2..] == EscapeQuotes(s[1..]);
      } else {
        assert EscapeQuotes(s) == [s[0]] + EscapeQuotes(s[1..]);
        assert EscapeQuotes(s)[1..] == EscapeQuotes(s[1..]);
        EscapedNeverStartsWithQuote(s[1..]);
      }
      assert [s[0]] + s[1..] == s;
    }
  }

  /** Drops the backslash of every `\'` pair. */
  function Unescape(s: string): string
  {
    if s == [] then []
    else if |s| >= 2 && s[0] == '\\' && s[1] == '\'' then ['\''] + Unescape(s[2..])
    else [s[0]] + Unescape(s[1..])
  }

  lemma EscapedNeverStartsWithQuote(s: string)
    ensures EscapeQuotes(s) == [] || EscapeQuotes(s)[0] != '\''
  {
  }

  /**
   * On text without backslashes or line breaks the quote escaping coincides
   * with the full literal escaping `Text.Escape`.
   */
  lemma {:induction false} EscapeQuotesIsLiteralEscape(s: string)
    requires '\\' !in s && '\n' !in s && '\r' !in s
    ensures EscapeQuotes(s) == Text.Escape(s, '\'')
  {
    if s != [] {
      EscapeQuotesIsLiteralEscape(s[1..]);
    }
  }

  /**
   * Backslashes pass through unescaped, so a name ending in one escapes the
   * closing quote: the literal printed for "C:\" does not read back as "C:\".
   */
  lemma TrailingBackslashBreaksLiteral(rest: string)
    ensures Text.ReadQuoted(EscapeQuotes("C:\\") + ("'" + rest), '\'') != Some(("C:\\", rest))
  {
    var s := EscapeQuotes("C:\\") + ("'" + rest);
    assert EscapeQuotes("C:\\") == "C:\\";
    var s2 := ['\\', '\''] + rest;
    var s1 := [':'] + s2;
    assert s == ['C'] + s1;
    assert s2[2..] == rest;
    var r2 := Text.ReadQuoted(s2, '\'');
    assert r2.Some? ==> r2.value.0[0] == '\'';
    var r1 := Text.ReadQuoted(s1, '\'');
    assert r1.Some? ==> r1.value.0 == [':'] + r2.value.0;
    var r := Text.ReadQuoted(s, '\'');
    assert r.Some? ==> r.value.0 == ['C'] + r1.value.0;
    if r.Some? {
      assert r.value.0[2] == '\'';
    }
  }

  /**
   * Line breaks also pass through raw, and a TypeScript string literal cannot
   * hold one: the literal printed for a name with a line break is unterminated.
   */
  lemma LineBreakBreaksLiteral(rest: string)
    ensures Text.ReadQuoted(EscapeQuotes("a\nb") + ("'" + rest), '\'') == None
  {
    var s := EscapeQuotes("a\nb") + ("'" + rest);
    assert EscapeQuotes("a\nb") == "a\nb";
    assert s[1..][0] == '\n';
  }

  // ---------------------------------------------------------------------------
  // Reading the output back

  /** Text that a single-quoted literal carries unchanged under the quote escaping. */
  predicate Plain(s: string)
  {
    '\\' !in s && '\n' !in s && '\r' !in s
  }

  /**
   * Sources whose printed block is valid TypeScript and reads back: no
   * backslash or line break in name or url; a bare id is a non-empty run of
   * digits, a quoted one holds no quote, backslash or line break.
   */
  predicate Printable(x: JobSource, style: IdStyle)
  {
    && Plain(x.name) && Plain(x.url)
    && match style
       case Bare => x.id != [] && forall i :: 0 <= i < |x.id| ==> Text.IsDigit(x.id[i])
       case Quoted => '\'' !in x.id && Plain(x.id)
  }

  /** The id: a bare id must be a non-empty number (`id: ,` is a syntax error), a quoted one a literal. */
  function ReadId(s: string, style: IdStyle): (r: Option<(string, string)>)
    ensures r.Some? ==> |r.value.1| <= |s|
  {
    match style
    case Bare =>
      var (d, rest) := Text.ReadDigits(s);
      if d == [] then None else Some((d, rest))
    case Quoted =>
      var body :- Text.ExpectPrefix("'", s);
      Text.ReadQuoted(body, '\'')
  }

  /** One block: the source, whether it was the last (no trailing comma), and the text after it. */
  function ReadBlock(s: string, style: IdStyle): (r: Option<(JobSource, bool, string)>)
    ensures r.Some? ==> |r.value.2| < |s|
  {
    var r1 :- Text.ExpectPrefix("    {\n      id: ", s);
    var (id, r2) :- ReadId(r1, style);
    var r3 :- Text.ExpectPrefix(",\n      name: '", r2);
    var (name, r4) :- Text.ReadQuoted(r3, '\'');
    var r5 :- Text.ExpectPrefix(",\n      url: '", r4);
    var (url, r6) :- Text.ReadQuoted(r5, '\'');
    if ",\n    }" <= r6 then Some((JobSource(id, name, url), false, r6[7..]))
    else
      var r7 :- Text.ExpectPrefix("\n    }", r6);
      Some((JobSource(id, name, url), true, r7))
  }

  /** Blocks up to and including the one without a comma, then the footer, which must end the text. */
  function ReadBlocks(s: string, style: IdStyle): (r: Option<seq<JobSource>>)
    decreases |s|
  {
    var (x, last, rest) :- ReadBlock(s, style);
    if last then (if rest == Footer then Some([x]) else None)
    else
      var xs :- ReadBlocks(rest, style);
      Some([x] + xs)
  }

  function ReadSourcesCode(code: string, style: IdStyle): Option<seq<JobSource>>
  {
    var body :- Text.ExpectPrefix(Header, code);
    if body == Footer then Some([]) else ReadBlocks(body, style)
  }

  /** A block followed by `rest`: the same text with the concatenation regrouped to the right. */
  function PutBlock(x: JobSource, style: IdStyle, last: bool, rest: string): string
  {
    "    {\n      id: " + (IdText(x.id, style) + (",\n      name: '" + (EscapeQuotes(x.name) + ("'"
      + (",\n      url: '" + (EscapeQuotes(x.url) + ("'" + ((if last then "" else ",") + ("\n    }" + rest)))))))))
  }

  lemma PutBlockIsBlock(x: JobSource, style: IdStyle, last: bool, rest: string)
    ensures Block(x, style, last) + rest == PutBlock(x, style, last, rest)
  {
    var c := if last then "" else ",";
    var p3 := "\n    }";
    var u := EscapeQuotes(x.url);
    var n := EscapeQuotes(x.name);
    var i := IdText(x.id, style);
    var p0, p1, p2 := "    {\n      id: ", ",\n      name: '", ",\n      url: '";
    var h1 := p0 + i;
    var h2 := h1 + p1;
    var h3 := h2 + n;
    var h4 := h3 + "'";
    var h5 := h4 + p2;
    var h := h5 + u;
    assert BlockHead(x, style) == h;
    var e := ("'" + c) + p3;
    assert BlockEnd(last) == e;
    var t := "'" + (c + (p3 + rest));
    calc {
      Block(x, style, last) + rest;
      (h + e) + rest;
      { Text.Assoc(h, e, rest); }
      h + (e + rest);
      { Text.Assoc("'" + c, p3, rest); Text.Assoc("'", c, p3 + rest); }
      h + t;
      { Text.Assoc(h5, u, t); }
      h5 + (u + t);
      { Text.Assoc(h4, p2, u + t); }
      h4 + (p2 + (u + t));
      { Text.Assoc(h3, "'", p2 + (u + t)); }
      h3 + ("'" + (p2 + (u + t)));
      { Text.Assoc(h2, n, "'" + (p2 + (u + t))); }
      h2 + (n + ("'" + (p2 + (u + t))));
      { Text.Assoc(h1, p1, n + ("'" + (p2 + (u + t)))); }
      h1 + (p1 + (n + ("'" + (p2 + (u + t)))));
      { Text.Assoc(p0, i, p1 + (n + ("'" + (p2 + (u + t))))); }
      p0 + (i + (p1 + (n + ("'" + (p2 + (u + t))))));
    }
  }

  lemma ReadIdOf(x: JobSource, style: IdStyle, rest: string)
    requires Printable(x, style)
    requires rest != [] && rest[0] == ','
    ensures ReadId(IdText(x.id, style) + rest, style) == Some((x.id, rest))
  {
    match style
    case Bare =>
      Text.ReadDigitsOf(x.id, rest);
    case Quoted =>
      var s := IdText(x.id, style) + rest;
      assert s == "'" + (x.id + ("'" + rest));
      Text.EscapeNothing(x.id, '\'');
      Text.ExpectPrefixOf("'", x.id + ("'" + rest));
      Text.ReadEscaped(x.id, '\'', rest);
  }

  lemma ReadLiteralOf(s: string, rest: string)
    requires Plain(s)
    ensures Text.ReadQuoted(EscapeQuotes(s) + ("'" + rest), '\'') == Some((s, rest))
  {
    EscapeQuotesIsLiteralEscape(s);
    Text.ReadEscaped(s, '\'', rest);
  }

  lemma ReadBlockOf(s: string, x: JobSource, style: IdStyle, last: bool, rest: string)
    requires s == PutBlock(x, style, last, rest)
    requires Printable(x, style)
    requires last ==> rest == [] || rest[0] != ','
    ensures ReadBlock(s, style) == Some((x, last, rest))
  {
    var r6 := (if last then "" else ",") + ("\n    }" + rest);
    var r5 := EscapeQuotes(x.url) + ("'" + r6);
    var r4 := ",\n      url: '" + r5;
    var r3 := EscapeQuotes(x.name) + ("'" + r4);
    var r2 := ",\n      name: '" + r3;
    var r1 := IdText(x.id, style) + r2;
    Text.ExpectPrefixOf("    {\n      id: ", r1);
    ReadIdOf(x, style, r2);
    Text.ExpectPrefixOf(",\n      name: '", r3);
    ReadLiteralOf(x.name, r4);
    Text.ExpectPrefixOf(",\n      url: '", r5);
    ReadLiteralOf(x.url, r6);
    ReadBlockEnd(last, rest);
  }

  lemma ReadBlockEnd(last: bool, rest: string)
    requires last ==> rest == [] || rest[0] != ','
    ensures var r6 := (if last then "" else ",") + ("\n    }" + rest);
      if last then !(",\n    }" <= r6) && Text.ExpectPrefix("\n    }", r6) == Some(rest)
      else ",\n    }" <= r6 && r6[7..] == rest
  {
    var r6 := (if last then "" else ",") + ("\n    }" + rest);
    if last {
      assert r6 == "\n    }" + rest;
      assert r6[0] == '\n';
      Text.ExpectPrefixOf("\n    }", rest);
    } else {
      assert r6 == ",\n    }" + rest;
      assert r6[7..] == rest;
    }
  }

  lemma ReadBlocksOf(xs: seq<JobSource>, style: IdStyle)
    requires xs != []
    requires forall x :: x in xs ==> Printable(x, style)
    ensures ReadBlocks(Join(Blocks(xs, style)) + Footer, style) == Some(xs)
  {
    PrintedIsJoin(xs, style);
    ReadPrinted(xs, style);
  }

  /** The blocks and the footer, nested to the right: every block but the last is followed by the rest. */
  function Printed(xs: seq<JobSource>, style: IdStyle): string
    requires xs != []
  {
    if |xs| == 1 then PutBlock(xs[0], style, true, Footer)
    else PutBlock(xs[0], style, false, Printed(xs[1..], style))
  }

  lemma {:induction false} PrintedIsJoin(xs: seq<JobSource>, style: IdStyle)
    requires xs != []
    ensures Join(Blocks(xs, style)) + Footer == Printed(xs, style)
  {
    FirstBlock(xs, style);
    if |xs| == 1 {
      assert xs[1..] == [];
      assert Join(Blocks(xs[1..], style)) + Footer == Footer;
    } else {
      PrintedIsJoin(xs[1..], style);
    }
  }

  /** Each printed block reads back as its source, the last one closing the list. */
  lemma {:induction false} ReadPrinted(xs: seq<JobSource>, style: IdStyle)
    requires xs != []
    requires forall x :: x in xs ==> Printable(x, style)
    ensures ReadBlocks(Printed(xs, style), style) == Some(xs)
  {
    if |xs| == 1 {
      ReadPrintedLast(xs, style);
    } else {
      assert forall x :: x in xs[1..] ==> x in xs;
      ReadPrinted(xs[1..], style);
      ReadPrintedStep(xs, style);
    }
  }

  lemma ReadPrintedLast(xs: seq<JobSource>, style: IdStyle)
    requires |xs| == 1 && Printable(xs[0], style)
    ensures ReadBlocks(Printed(xs, style), style) == Some(xs)
  {
    ReadOneBlock(xs[0], style);
    assert [xs[0]] == xs;
  }

  lemma ReadPrintedStep(xs: seq<JobSource>, style: IdStyle)
    requires |xs| > 1 && Printable(xs[0], style)
    requires ReadBlocks(Printed(xs[1..], style), style) == Some(xs[1..])
    ensures ReadBlocks(Printed(xs, style), style) == Some(xs)
  {
    ReadMoreBlocks(xs[0], style, Printed(xs[1..], style), xs[1..]);
    assert [xs[0]] + xs[1..] == xs;
  }

  /** The last block followed by the footer reads as a one-element list. */
  lemma ReadOneBlock(x: JobSource, style: IdStyle)
    requires Printable(x, style)
    ensures ReadBlocks(PutBlock(x, style, true, Footer), style) == Some([x])
  {
    assert Footer[0] == '\n';
    ReadBlockOf(PutBlock(x, style, true, Footer), x, style, true, Footer);
  }

  /** A block that is not the last, followed by readable blocks, reads as one more source. */
  lemma ReadMoreBlocks(x: JobSource, style: IdStyle, rest: string, tail: seq<JobSource>)
    requires Printable(x, style)
    requires ReadBlocks(rest, style) == Some(tail)
    ensures ReadBlocks(PutBlock(x, style, false, rest), style) == Some([x] + tail)
  {
    ReadBlockOf(PutBlock(x, style, false, rest), x, style, false, rest);
  }

  /** The printed text of a non-empty list is its first block followed by the text of the others. */
  lemma FirstBlock(xs: seq<JobSource>, style: IdStyle)
    requires xs != []
    ensures Join(Blocks(xs, style)) + Footer
      == PutBlock(xs[0], style, |xs| == 1, Join(Blocks(xs[1..], style)) + Footer)
  {
    var bs := Blocks(xs, style);
    BlocksTail(xs, style);
    assert Join(bs) == bs[0] + Join(bs[1..]);
    Text.Assoc(bs[0], Join(bs[1..]), Footer);
    PutBlockIsBlock(xs[0], style, |xs| == 1, Join(Blocks(xs[1..], style)) + Footer);
  }

  /** Printed blocks, and so the text after the header of a non-empty list, start with a space. */
  lemma StartsWithBlock(xs: seq<JobSource>, style: IdStyle)
    requires xs != []
    ensures |Join(Blocks(xs, style)) + Footer| > 0 && (Join(Blocks(xs, style)) + Footer)[0] == ' '
  {
    var bs := Blocks(xs, style);
    assert Join(bs) == bs[0] + Join(bs[1..]);
    assert bs[0] == BlockHead(xs[0], style) + BlockEnd(|xs| == 1);
    assert BlockHead(xs[0], style)[0] == ' ';
  }

  /** The printed array literal reads back as the list it was printed from. */
  lemma ReadSourcesCodeOf(xs: seq<JobSource>, style: IdStyle)
    requires forall x :: x in xs ==> Printable(x, style)
    ensures ReadSourcesCode(SourcesCode(xs, style), style) == Some(xs)
  {
    var body := Join(Blocks(xs, style)) + Footer;
    Text.ExpectPrefixOf(Header, body);
    if xs != [] {
      StartsWithBlock(xs, style);
      ReadBlocksOf(xs, style);
    }
  }

  /** `updateSourcesInCode` prints one block per source, in order: numeric ids round-trip. */
  lemma UpdateSourcesInCodeRoundTrip(sources: seq<JobSource>)
    requires forall x :: x in sources ==> Printable(x, Bare)
    ensures ReadSourcesCode(UpdateSourcesInCode(sources), Bare) == Some(sources)
  {
    ReadSourcesCodeOf(sources, Bare);
  }

  /** `generateSourceCode` prints one block per source, in order, ids quoted. */
  lemma GenerateSourceCodeRoundTrip(sources: seq<JobSource>)
    requires forall x :: x in sources ==> Printable(x, Quoted)
    ensures ReadSourcesCode(GenerateSourceCode(sources), Quoted) == Some(sources)
  {
    ReadSourcesCodeOf(sources, Quoted);
  }
}
