/**
 * Reading and writing quoted string literals: the pieces shared by the
 * JSON encoding of the persisted list and by the reader used to check the
 * generated TypeScript.
 */
module Text {
  import opened Wrappers

  /** The rest of `s` after the literal prefix `p`, if `s` starts with it. */
  function ExpectPrefix(p: string, s: string): (r: Option<string>)
    ensures r.Some? <==> p <= s
    ensures r.Some? ==> s == p + r.value
  {
    if p <= s then Some(s[|p|..]) else None
  }

  lemma ExpectPrefixOf(p: string, rest: string)
    ensures ExpectPrefix(p, p + rest) == Some(rest)
  {
    assert (p + rest)[|p|..] == rest;
  }

  /** The two quote characters the literals use. */
  predicate IsQuote(q: char)
  {
    q == '"' || q == '\''
  }

  /** A line terminator, which neither a JSON string nor a TypeScript string literal may hold raw. */
  predicate IsLineBreak(c: char)
  {
    c == '\n' || c == '\r'
  }

  /**
   * The literal escaping shared by JSON strings and TypeScript string
   * literals: a backslash before every `q` and every backslash, and line
   * breaks written as `\n` and `\r`.
   */
  function Escape(s: string, q: char): (r: string)
    requires IsQuote(q)
    ensures |r| >= |s|
    ensures forall i :: 0 <= i < |r| ==> !IsLineBreak(r[i])
  {
    if s == [] then [] else EscapeChar(s[0], q) + Escape(s[1..], q)
  }

  /** One character escaped. */
  function EscapeChar(c: char, q: char): (r: string)
    requires IsQuote(q)
    ensures 1 <= |r| <= 2 && !IsLineBreak(r[0]) && !IsLineBreak(r[|r| - 1])
  {
    if c == q || c == '\\' then ['\\', c]
    else if c == '\n' then ['\\', 'n']
    else if c == '\r' then ['\\', 'r']
    else [c]
  }

  /** Text without quotes, backslashes or line breaks is its own escaping. */
  lemma {:induction false} EscapeNothing(s: string, q: char)
    requires IsQuote(q)
    requires q !in s && '\\' !in s && '\n' !in s && '\r' !in s
    ensures Escape(s, q) == s
  {
    if s != [] {
      EscapeNothing(s[1..], q);
      assert [s[0]] + s[1..] == s;
    }
  }

  /** The character a backslash followed by `c` stands for, if that pair is an escape the reader knows. */
  function Unescaped(c: char, q: char): (r: Option<char>)
    ensures IsQuote(q) && r.Some? ==> EscapeChar(r.value, q) == ['\\', c]
  {
    if c == q || c == '\\' then Some(c)
    else if c == 'n' then Some('\n')
    else if c == 'r' then Some('\r')
    else None
  }

  /**
   * Reads the body of a literal whose opening quote `q` has been consumed:
   * `\q`, `\\`, `\n` and `\r` stand for `q`, a backslash and the two line
   * breaks, any other backslash is an error, a raw line break is an error
   * (the literal is unterminated), and the first bare `q` closes it.  Yields
   * the body and what follows the closing quote.
   */
  function ReadQuoted(s: string, q: char): (r: Option<(string, string)>)
    ensures r.Some? ==> |r.value.1| < |s|
  {
    if s == [] then None
    else if s[0] == q then Some(([], s[1..]))
    else if IsLineBreak(s[0]) then None
    else if s[0] == '\\' then
      if |s| >= 2 && Unescaped(s[1], q).Some? then
        match ReadQuoted(s[2..], q)
        case None => None
        case Some((body, rest)) => Some(([Unescaped(s[1], q).value] + body, rest))
      else None
    else
      match ReadQuoted(s[1..], q)
      case None => None
      case Some((body, rest)) => Some(([s[0]] + body, rest))
  }

  /** Reading an escaped body back yields the original string. */
  lemma {:induction false} ReadEscaped(x: string, q: char, rest: string)
    requires IsQuote(q)
    ensures ReadQuoted(Escape(x, q) + ([q] + rest), q) == Some((x, rest))
  {
    if x == [] {
      assert Escape(x, q) + ([q] + rest) == [q] + rest;
    } else {
      var t := Escape(x[1..], q) + ([q] + rest);
      ReadEscaped(x[1..], q, rest);
      ReadEscapedChar(x[0], q, t, x[1..], rest);
      Assoc(EscapeChar(x[0], q), Escape(x[1..], q), [q] + rest);
      assert [x[0]] + x[1..] == x;
    }
  }

  /** The reader consumes one escaped character and conses it onto the body it reads next. */
  lemma ReadEscapedChar(c: char, q: char, t: string, body: string, rest: string)
    requires IsQuote(q)
    requires ReadQuoted(t, q) == Some((body, rest))
    ensures ReadQuoted(EscapeChar(c, q) + t, q) == Some(([c] + body, rest))
  {
    var s := EscapeChar(c, q) + t;
    if c == q || c == '\\' || IsLineBreak(c) {
      var e := EscapeChar(c, q);
      assert s[0] == '\\' && s[1] == e[1] && s[2..] == t;
      assert Unescaped(e[1], q) == Some(c);
    } else {
      assert s[0] == c && s[1..] == t;
    }
  }

  /** What the reader accepts is exactly an escaped body and its closing quote. */
  lemma {:induction false} ReadQuotedCanonical(s: string, q: char)
    requires IsQuote(q)
    requires ReadQuoted(s, q).Some?
    ensures s == Escape(ReadQuoted(s, q).value.0, q) + ([q] + ReadQuoted(s, q).value.1)
  {
    if s[0] == q {
      assert s == [q] + s[1..];
    } else if s[0] == '\\' {
      ReadQuotedCanonical(s[2..], q);
      var (b, r) := ReadQuoted(s[2..], q).value;
      EscapedPairStep(s, q, b, r);
    } else {
      ReadQuotedCanonical(s[1..], q);
      var (b, r) := ReadQuoted(s[1..], q).value;
      PlainCharStep(s, q, b, r);
    }
  }

  /** An escape pair in front of a canonical literal gives a canonical literal. */
  lemma EscapedPairStep(s: string, q: char, b: string, r: string)
    requires IsQuote(q)
    requires |s| >= 2 && s[0] == '\\' && Unescaped(s[1], q).Some?
    requires s[2..] == Escape(b, q) + ([q] + r)
    ensures s == Escape([Unescaped(s[1], q).value] + b, q) + ([q] + r)
  {
    var body := [Unescaped(s[1], q).value] + b;
    assert body[1..] == b;
    assert Escape(body, q) == ['\\', s[1]] + Escape(b, q);
    assert s == ['\\', s[1]] + s[2..];
    Assoc(['\\', s[1]], Escape(b, q), [q] + r);
  }

  /** An ordinary character in front of a canonical literal gives a canonical literal. */
  lemma PlainCharStep(s: string, q: char, b: string, r: string)
    requires IsQuote(q)
    requires |s| >= 1 && s[0] != q && s[0] != '\\' && !IsLineBreak(s[0])
    requires s[1..] == Escape(b, q) + ([q] + r)
    ensures s == Escape([s[0]] + b, q) + ([q] + r)
  {
    var body := [s[0]] + b;
    assert body[0] == s[0] && body[1..] == b;
    assert Escape(body, q) == [s[0]] + Escape(b, q);
    assert s == [s[0]] + s[1..];
    Assoc([s[0]], Escape(b, q), [q] + r);
  }

  lemma Assoc(a: string, b: string, c: string)
    ensures (a + b) + c == a + (b + c)
  {
  }

  predicate IsDigit(c: char)
  {
    '0' <= c <= '9'
  }

  /** The longest run of digits at the start of `s`, and what follows it. */
  function ReadDigits(s: string): (r: (string, string))
    ensures r.0 + r.1 == s
    ensures forall i :: 0 <= i < |r.0| ==> IsDigit(r.0[i])
    ensures r.1 != [] ==> !IsDigit(r.1[0])
  {
    if s == [] || !IsDigit(s[0]) then ([], s)
    else
      var (d, rest) := ReadDigits(s[1..]);
      assert [s[0]] + d + rest == [s[0]] + (d + rest);
      ([s[0]] + d, rest)
  }

  /** A digit string followed by a non-digit is read back whole. */
  lemma {:induction false} ReadDigitsOf(d: string, rest: string)
    requires forall i :: 0 <= i < |d| ==> IsDigit(d[i])
    requires rest != [] && !IsDigit(rest[0])
    ensures ReadDigits(d + rest) == (d, rest)
  {
    if d != [] {
      assert (d + rest)[1..] == d[1..] + rest;
      ReadDigitsOf(d[1..], rest);
      assert [d[0]] + d[1..] == d;
    } else {
      assert d + rest == rest;
    }
  }
}
