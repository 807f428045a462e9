/** `String.prototype.split` on a one-character separator, and the
    `split(',')[1]` the detection client uses to take the payload out of a
    data URL (RFC 2397, section 3: `data:[<mediatype>][;base64],<data>`). */
module TextSplit {
  import opened Outcomes

  /** The position of the first `c` in `s`. */
  function IndexOf(s: string, c: char): (i: nat)
    requires c in s
    ensures i < |s| && s[i] == c
    ensures c !in s[..i]
  {
    if s[0] == c then 0
    else
      assert s == [s[0]] + s[1..];
      1 + IndexOf(s[1..], c)
  }

  /** Glues the pieces back together with `sep` between neighbours. */
  function Join(parts: seq<string>, sep: char): string
    requires |parts| >= 1
  {
    if |parts| == 1 then parts[0] else parts[0] + [sep] + Join(parts[1..], sep)
  }

  /** The pieces between occurrences of `sep`; there is always at least one
      (the empty string splits into one empty piece), none contains `sep`,
      and joining them restores the input. */
  function Split(s: string, sep: char): (parts: seq<string>)
    ensures |parts| >= 1
    ensures forall k :: 0 <= k < |parts| ==> sep !in parts[k]
    ensures Join(parts, sep) == s
    ensures |parts| == 1 <==> sep !in s
    decreases |s|
  {
    if sep !in s then [s]
    else
      var i := IndexOf(s, sep);
      assert s == s[..i] + [sep] + s[i + 1..];
      var rest := Split(s[i + 1..], sep);
      assert ([s[..i]] + rest)[1..] == rest;
      [s[..i]] + rest
  }

  /** A prefix free of `sep`, followed by `sep`, is the first piece. */
  lemma SplitAfterFirst(a: string, sep: char, rest: string)
    requires sep !in a
    ensures Split(a + [sep] + rest, sep) == [a] + Split(rest, sep)
  {
    var s := a + [sep] + rest;
    assert s[|a|] == sep;
    var i := IndexOf(s, sep);
    assert s[..i] == a;
    assert s[i + 1..] == rest;
  }

  /** Splitting the join of separator-free pieces gives the pieces back. */
  lemma {:induction false} JoinSplitRoundTrip(parts: seq<string>, sep: char)
    requires |parts| >= 1
    requires forall k :: 0 <= k < |parts| ==> sep !in parts[k]
    ensures Split(Join(parts, sep), sep) == parts
  {
    if |parts| == 1 {
      assert Join(parts, sep) == parts[0];
    } else {
      JoinSplitRoundTrip(parts[1..], sep);
      SplitAfterFirst(parts[0], sep, Join(parts[1..], sep));
      assert parts == [parts[0]] + parts[1..];
    }
  }

  /** `s.split(',')[1]`: the second comma-separated piece, or `undefined`
      when there is no comma. */
  function SecondPiece(s: string): (r: Option<string>)
    ensures r.None? <==> ',' !in s
    ensures r.Some? ==> ',' !in r.value
  {
    var parts := Split(s, ',');
    if |parts| >= 2 then Some(parts[1]) else None
  }

  /** A separator-free prefix ending at a separator or at the end of the
      input is the first piece. */
  lemma FirstPiece(p: string, sep: char, t: string)
    requires sep !in p
    requires t == [] || t[0] == sep
    ensures Split(p + t, sep)[0] == p
  {
    if t == [] {
      assert p + t == p;
    } else {
      assert p + t == p + [sep] + t[1..];
      SplitAfterFirst(p, sep, t[1..]);
    }
  }

  /** The piece taken is the text after the first comma, up to the next
      comma or the end of the input. */
  lemma SecondPieceIsAfterFirstComma(a: string, p: string, t: string)
    requires ',' !in a && ',' !in p
    requires t == [] || t[0] == ','
    ensures SecondPiece(a + [','] + p + t) == Some(p)
  {
    var s := a + [','] + p + t;
    assert s == a + [','] + (p + t);
    SplitAfterFirst(a, ',', p + t);
    FirstPiece(p, ',', t);
    var parts := Split(s, ',');
    assert parts == [a] + Split(p + t, ',');
    assert parts[1] == p;
  }

  /** The characters of the base64 alphabet, padding included. */
  predicate IsBase64Char(ch: char) {
    ('A' <= ch <= 'Z') || ('a' <= ch <= 'z') || ('0' <= ch <= '9') || ch == '+' || ch == '/' || ch == '='
  }

  /** A base64 data URL with the given media type and encoded body. */
  function Base64DataUrl(mediaType: string, body: string): (url: string)
    ensures |url| == 13 + |mediaType| + |body|
    ensures url[..5] == "data:"
    ensures url[|url| - |body|..] == body
  {
    "data:" + mediaType + ";base64," + body
  }

  /** For a base64 data URL whose media type holds no comma the piece taken
      is the whole encoded body. */
  lemma DataUrlPayload(mediaType: string, body: string)
    requires ',' !in mediaType
    requires forall k :: 0 <= k < |body| ==> IsBase64Char(body[k])
    ensures SecondPiece(Base64DataUrl(mediaType, body)) == Some(body)
  {
  }
}
