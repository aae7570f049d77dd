/**
 * The two JSON documents the system persists, `JSON.stringify` of an array of
 * used ids and of an array of products, and the `JSON.parse` that reads them
 * back. The codec is a small concrete one: an array of string literals, with
 * a product written as three consecutive strings (id, name, category). The
 * decoder accepts one such document between JSON whitespace and rejects
 * everything else, as `JSON.parse` rejects a file holding two documents.
 */
module Json {
  import opened Base
  import opened Catalog

  /** JSON's insignificant whitespace. */
  predicate IsWhitespace(c: char) {
    c == ' ' || c == '\t' || c == '\n' || c == '\r'
  }

  predicate AllWhitespace(s: string) {
    forall i :: 0 <= i < |s| ==> IsWhitespace(s[i])
  }

  // ---------------------------------------------------------------- encoder

  function EscapeChar(c: char): string {
    if c == '"' then "\\\""
    else if c == '\\' then "\\\\"
    else if c == '\n' then "\\n"
    else if c == '\r' then "\\r"
    else if c == '\t' then "\\t"
    else [c]
  }

  function Escape(s: string): string {
    if |s| == 0 then "" else EscapeChar(s[0]) + Escape(s[1..])
  }

  function Quote(s: string): string {
    "\"" + Escape(s) + "\""
  }

  function Elements(xs: seq<string>): string {
    if |xs| == 0 then ""
    else if |xs| == 1 then Quote(xs[0])
    else Quote(xs[0]) + "," + Elements(xs[1..])
  }

  /** `JSON.stringify` of an array of strings. */
  function EncodeStrings(xs: seq<string>): (s: string)
    ensures |s| >= 2 && s[0] == '['
  {
    "[" + Elements(xs) + "]"
  }

  // ---------------------------------------------------------------- decoder

  /** The character an escape sequence `\c` stands for. */
  function Unescape(c: char): Option<char> {
    if c == '"' || c == '\\' then Some(c)
    else if c == 'n' then Some('\n')
    else if c == 'r' then Some('\r')
    else if c == 't' then Some('\t')
    else None
  }

  /** The body of a string literal up to its closing quote, and what follows the quote. */
  function ParseChars(s: string): (r: Option<(string, string)>)
    ensures r.Some? ==> |r.value.1| < |s|
  {
    if |s| == 0 then None
    else if s[0] == '"' then Some(("", s[1..]))
    else if s[0] == '\\' then
      if |s| < 2 then None
      else match Unescape(s[1])
        case None => None
        case Some(c) =>
          match ParseChars(s[2..])
          case None => None
          case Some((t, rest)) => Some(([c] + t, rest))
    else
      match ParseChars(s[1..])
      case None => None
      case Some((t, rest)) => Some(([s[0]] + t, rest))
  }

  /** One or more string literals separated by commas and closed by `]`. */
  function ParseElements(s: string): (r: Option<(seq<string>, string)>)
    ensures r.Some? ==> |r.value.1| < |s|
    decreases |s|
  {
    if |s| == 0 || s[0] != '"' then None
    else match ParseChars(s[1..])
      case None => None
      case Some((x, rest)) =>
        if |rest| == 0 then None
        else if rest[0] == ']' then Some(([x], rest[1..]))
        else if rest[0] == ',' then
          match ParseElements(rest[1..])
          case None => None
          case Some((xs, after)) => Some(([x] + xs, after))
        else None
  }

  /** The rest of an array after its opening `[`. */
  function ParseArray(s: string): Option<(seq<string>, string)> {
    if |s| > 0 && s[0] == ']' then Some(([], s[1..])) else ParseElements(s)
  }

  function SkipWhitespace(s: string): (t: string)
    ensures |t| <= |s| && t == s[|s| - |t|..]
    ensures |t| > 0 ==> !IsWhitespace(t[0])
  {
    if |s| > 0 && IsWhitespace(s[0]) then SkipWhitespace(s[1..]) else s
  }

  /**
   * `JSON.parse` restricted to the documents the encoder writes: white space,
   * `[`, string literals separated by `,` with no white space between the
   * tokens, `]`, white space. Inside a literal only the escapes the encoder
   * writes are understood and every other character stands for itself. Other
   * valid JSON (white space inside the array, other escapes, other values)
   * gives None, and raw control characters, which `JSON.parse` refuses, are
   * accepted. Blank input, on which `JSON.parse` throws, gives None.
   */
  function DecodeStrings(s: string): (r: Option<seq<string>>)
    ensures AllWhitespace(s) ==> r == None
  {
    var t := SkipWhitespace(s);
    assert AllWhitespace(s) ==> t == "" by {
      if AllWhitespace(s) {
        SkipWhitespaceAll(s);
      }
    }
    if |t| > 0 && t[0] == '[' then
      match ParseArray(t[1..])
      case Some((xs, rest)) => if AllWhitespace(rest) then Some(xs) else None
      case None => None
    else None
  }

  // ---------------------------------------------------------------- round trip

  lemma {:induction false} ParseEscaped(x: string, rest: string)
    ensures ParseChars(Escape(x) + "\"" + rest) == Some((x, rest))
  {
    if |x| == 0 {
      assert Escape(x) + "\"" + rest == "\"" + rest;
    } else {
      ParseEscaped(x[1..], rest);
      var s := Escape(x) + "\"" + rest;
      var tail := Escape(x[1..]) + "\"" + rest;
      assert s == EscapeChar(x[0]) + tail;
      if EscapeChar(x[0]) == [x[0]] {
        assert s[0] == x[0] && s[1..] == tail;
        assert [x[0]] + x[1..] == x;
      } else {
        assert s[0] == '\\' && s[2..] == tail;
        assert Unescape(s[1]) == Some(x[0]);
        assert [x[0]] + x[1..] == x;
      }
    }
  }

  /** A string literal followed by `sep`: the element parser takes the literal, then ends at `]` or goes on after `,`. */
  lemma ParseQuoted(x: string, sep: char, more: string)
    ensures ParseElements(Quote(x) + [sep] + more) ==
      if sep == ']' then Some(([x], more))
      else if sep == ',' then
        match ParseElements(more)
        case None => None
        case Some((xs, after)) => Some(([x] + xs, after))
      else None
  {
    var s := Quote(x) + [sep] + more;
    assert s[0] == '"';
    assert s[1..] == Escape(x) + "\"" + ([sep] + more);
    ParseEscaped(x, [sep] + more);
    assert ([sep] + more)[0] == sep && ([sep] + more)[1..] == more;
  }

  /** The encoded elements followed by `]`: the first literal, then `]` or `,` and the remaining elements. */
  lemma ElementsThen(xs: seq<string>, rest: string)
    requires |xs| > 0
    ensures Elements(xs) + "]" + rest ==
      if |xs| == 1 then Quote(xs[0]) + [']'] + rest
      else Quote(xs[0]) + [','] + (Elements(xs[1..]) + "]" + rest)
  {
    var q := Quote(xs[0]);
    if |xs| == 1 {
      assert Elements(xs) == q;
    } else {
      var e := Elements(xs[1..]);
      assert Elements(xs) == q + [','] + e;
      assert q + [','] + e + "]" + rest == q + [','] + (e + "]" + rest);
    }
  }

  lemma {:induction false} ParseEncodedElements(xs: seq<string>, rest: string)
    requires |xs| > 0
    ensures ParseElements(Elements(xs) + "]" + rest) == Some((xs, rest))
  {
    ElementsThen(xs, rest);
    var s := Elements(xs) + "]" + rest;
    if |xs| == 1 {
      ParseLast(s, xs[0], rest);
      assert [xs[0]] == xs;
    } else {
      ParseEncodedElements(xs[1..], rest);
      ParseNext(s, xs[0], Elements(xs[1..]) + "]" + rest, xs[1..], rest);
      assert [xs[0]] + xs[1..] == xs;
    }
  }

  /** A last literal, closed by `]`. */
  lemma ParseLast(s: string, x: string, rest: string)
    requires s == Quote(x) + [']'] + rest
    ensures ParseElements(s) == Some(([x], rest))
  {
    ParseQuoted(x, ']', rest);
  }

  /** A literal followed by `,` and further elements. */
  lemma ParseNext(s: string, x: string, more: string, xs: seq<string>, rest: string)
    requires s == Quote(x) + [','] + more
    requires ParseElements(more) == Some((xs, rest))
    ensures ParseElements(s) == Some(([x] + xs, rest))
  {
    ParseQuoted(x, ',', more);
  }

  /** `JSON.parse(JSON.stringify(xs))` gives back `xs`, also with trailing whitespace such as the newline the store appends. */
  lemma EncodeStringsRoundTrip(xs: seq<string>, ws: string)
    requires AllWhitespace(ws)
    ensures DecodeStrings(EncodeStrings(xs) + ws) == Some(xs)
  {
    var s := EncodeStrings(xs) + ws;
    assert SkipWhitespace(s) == s;
    assert s[1..] == Elements(xs) + "]" + ws;
    if |xs| == 0 {
      assert s[1..] == "]" + ws;
    } else {
      ParseEncodedElements(xs, ws);
    }
  }

  // ---------------------------------------------------------------- a second document

  lemma {:induction false} ParseCharsExtends(s: string, t: string)
    requires ParseChars(s).Some?
    ensures ParseChars(s + t) == Some((ParseChars(s).value.0, ParseChars(s).value.1 + t))
  {
    if s[0] == '"' {
      assert (s + t)[1..] == s[1..] + t;
    } else if s[0] == '\\' {
      ParseCharsExtends(s[2..], t);
      assert (s + t)[2..] == s[2..] + t;
    } else {
      ParseCharsExtends(s[1..], t);
      assert (s + t)[1..] == s[1..] + t;
    }
  }

  lemma {:induction false} ParseElementsExtends(s: string, t: string)
    requires ParseElements(s).Some?
    ensures ParseElements(s + t) == Some((ParseElements(s).value.0, ParseElements(s).value.1 + t))
    decreases |s|
  {
    assert (s + t)[1..] == s[1..] + t;
    ParseCharsExtends(s[1..], t);
    var rest := ParseChars(s[1..]).value.1;
    assert (rest + t)[1..] == rest[1..] + t;
    if rest[0] == ',' {
      ParseElementsExtends(rest[1..], t);
    }
  }

  /**
   * Text appended after a complete document spoils it: once a file holds a
   * document, appending anything that is not whitespace makes `JSON.parse`
   * of the whole file throw.
   */
  lemma AppendAfterDocument(c: string, d: string)
    requires DecodeStrings(c).Some?
    requires !AllWhitespace(d)
    ensures DecodeStrings(c + d) == None
  {
    var t := SkipWhitespace(c);
    assert |t| > 0 && t[0] == '[' && ParseArray(t[1..]).Some?;
    AppendAfterArray(c, d, t);
  }

  /** The same, from the shape of the document: white space, then an array that parses. */
  lemma AppendAfterArray(c: string, d: string, t: string)
    requires SkipWhitespace(c) == t && |t| > 0 && t[0] == '[' && ParseArray(t[1..]).Some?
    requires !AllWhitespace(d)
    ensures DecodeStrings(c + d) == None
  {
    var body := t[1..];
    var rest := ParseArray(body).value.1;
    assert !AllWhitespace(c) by {
      assert c[|c| - |t|] == t[0];
    }
    SkipWhitespaceExtends(c, d);
    SplitFirst(t, d);
    ParseArrayExtends(body, d);
    NotAllWhitespaceAfter(rest, d);
    RejectsTrailing(c + d, body + d, rest + d);
  }

  /** A document whose array is followed by more than white space does not parse. */
  lemma RejectsTrailing(s: string, body: string, rest: string)
    requires SkipWhitespace(s) == ['['] + body
    requires ParseArray(body).Some? && ParseArray(body).value.1 == rest
    requires !AllWhitespace(rest)
    ensures DecodeStrings(s) == None
  {
    assert (['['] + body)[1..] == body;
  }

  lemma SplitFirst(t: string, d: string)
    requires |t| > 0
    ensures t + d == [t[0]] + (t[1..] + d)
  {
    assert t == [t[0]] + t[1..];
  }

  lemma NotAllWhitespaceAfter(a: string, d: string)
    requires !AllWhitespace(d)
    ensures !AllWhitespace(a + d)
  {
    var i :| 0 <= i < |d| && !IsWhitespace(d[i]);
    assert (a + d)[|a| + i] == d[i];
  }

  lemma ParseArrayExtends(s: string, t: string)
    requires ParseArray(s).Some?
    ensures ParseArray(s + t) == Some((ParseArray(s).value.0, ParseArray(s).value.1 + t))
  {
    if |s| > 0 && s[0] == ']' {
      assert (s + t)[1..] == s[1..] + t;
    } else {
      ParseElementsExtends(s, t);
    }
  }

  lemma {:induction false} SkipWhitespaceExtends(c: string, d: string)
    requires !AllWhitespace(c)
    ensures SkipWhitespace(c + d) == SkipWhitespace(c) + d
  {
    if IsWhitespace(c[0]) {
      assert (c + d)[1..] == c[1..] + d;
      assert !AllWhitespace(c[1..]) by {
        var i :| 0 <= i < |c| && !IsWhitespace(c[i]);
        assert c[1..][i - 1] == c[i];
      }
      SkipWhitespaceExtends(c[1..], d);
    }
  }

  // ---------------------------------------------------------------- products

  /** A product as the three strings id, name and category. */
  function Flatten(ps: seq<Product>): (xs: seq<string>)
    ensures |xs| == 3 * |ps|
  {
    if |ps| == 0 then [] else [ps[0].id, ps[0].name, ps[0].primaryCategory] + Flatten(ps[1..])
  }

  function Unflatten(xs: seq<string>): Option<seq<Product>> {
    if |xs| == 0 then Some([])
    else if |xs| < 3 then None
    else match Unflatten(xs[3..])
      case None => None
      case Some(ps) => Some([Product(xs[0], xs[1], xs[2])] + ps)
  }

  lemma {:induction false} UnflattenFlatten(ps: seq<Product>)
    ensures Unflatten(Flatten(ps)) == Some(ps)
  {
    if |ps| > 0 {
      var xs := Flatten(ps);
      assert xs[3..] == Flatten(ps[1..]);
      UnflattenFlatten(ps[1..]);
      assert [ps[0]] + ps[1..] == ps;
    }
  }

  /** Regrouping into triples loses nothing: flattening the triples gives the strings back. */
  lemma {:induction false} FlattenUnflatten(xs: seq<string>)
    ensures Unflatten(xs).Some? ==> Flatten(Unflatten(xs).value) == xs
    decreases |xs|
  {
    if |xs| >= 3 && Unflatten(xs).Some? {
      FlattenUnflatten(xs[3..]);
      assert xs == [xs[0], xs[1], xs[2]] + xs[3..];
    }
  }

  /** `JSON.stringify` of an array of products. */
  function EncodeProducts(ps: seq<Product>): (s: string)
    ensures |s| >= 2 && s[0] == '['
  {
    EncodeStrings(Flatten(ps))
  }

  /**
   * `JSON.parse` of a cached catalog, restricted as `DecodeStrings` is: the
   * decoded strings regrouped into (id, name, category) triples.
   */
  function DecodeProducts(s: string): (r: Option<seq<Product>>)
    ensures r.Some? ==> DecodeStrings(s).Some? && Flatten(r.value) == DecodeStrings(s).value
  {
    match DecodeStrings(s)
    case None => None
    case Some(xs) =>
      FlattenUnflatten(xs);
      Unflatten(xs)
  }

  /** `JSON.parse(JSON.stringify(ps))` gives back `ps`, also with trailing whitespace. */
  lemma EncodeProductsRoundTrip(ps: seq<Product>, ws: string)
    requires AllWhitespace(ws)
    ensures DecodeProducts(EncodeProducts(ps) + ws) == Some(ps)
  {
    EncodeStringsRoundTrip(Flatten(ps), ws);
    UnflattenFlatten(ps);
  }

  /** Appending after a complete product document spoils it, as for id arrays. */
  lemma AppendAfterProducts(c: string, d: string)
    requires DecodeProducts(c).Some?
    requires !AllWhitespace(d)
    ensures DecodeProducts(c + d) == None
  {
    AppendAfterDocument(c, d);
  }

  /** Neither an empty file nor one of whitespace alone is a document. */
  lemma BlankIsNoDocument(s: string)
    requires AllWhitespace(s)
    ensures DecodeStrings(s) == None && DecodeProducts(s) == None
  {
    SkipWhitespaceAll(s);
  }

  lemma {:induction false} SkipWhitespaceAll(s: string)
    requires AllWhitespace(s)
    ensures SkipWhitespace(s) == ""
  {
    if |s| > 0 {
      SkipWhitespaceAll(s[1..]);
    }
  }
}
