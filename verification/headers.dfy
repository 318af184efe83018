/** Extraction of the bearer token from the `Authorization` header, which the
    token gate does with `authHeader && authHeader.split(' ')[1]`. */
module Headers {
  import opened Outcomes

  /** Inverse of `Split`: the pieces glued back together with `sep`. */
  function Join(parts: seq<string>, sep: char): string
    requires |parts| >= 1
    decreases |parts|
  {
    if |parts| == 1 then parts[0] else parts[0] + [sep] + Join(parts[1..], sep)
  }

  /** JavaScript's `String.prototype.split` with a one-character separator:
      `"".split(' ')` is `[""]`, and two adjacent separators yield an empty
      piece between them. */
  function Split(s: string, sep: char): (parts: seq<string>)
    ensures |parts| >= 1
    ensures forall i :: 0 <= i < |parts| ==> sep !in parts[i]
    ensures Join(parts, sep) == s
    decreases |s|
  {
    if s == [] then [[]]
    else
      var rest := Split(s[1..], sep);
      if s[0] == sep then
        assert ([[]] + rest)[1..] == rest;
        [[]] + rest
      else
        var parts := [[s[0]] + rest[0]] + rest[1..];
        assert parts[1..] == rest[1..];
        parts
  }

  /** A piece without the separator splits to itself. */
  lemma {:induction false} SplitNoSeparator(p: string, sep: char)
    requires sep !in p
    ensures Split(p, sep) == [p]
    decreases |p|
  {
    if p != [] {
      SplitNoSeparator(p[1..], sep);
      assert [p[0]] + p[1..] == p;
    }
  }

  /** Splitting peels off the text before the first separator. */
  lemma {:induction false} SplitFirstPiece(p: string, sep: char, rest: string)
    requires sep !in p
    ensures Split(p + [sep] + rest, sep) == [p] + Split(rest, sep)
    decreases |p|
  {
    var s := p + [sep] + rest;
    if p == [] {
      assert s[0] == sep && s[1..] == rest;
    } else {
      assert s[0] == p[0] && s[1..] == p[1..] + [sep] + rest;
      SplitFirstPiece(p[1..], sep, rest);
      assert [p[0]] + p[1..] == p;
    }
  }

  /** `Split` recovers the pieces `Join` glued together, so the two are
      mutually inverse on separator-free pieces. */
  lemma {:induction false} SplitJoin(parts: seq<string>, sep: char)
    requires |parts| >= 1
    requires forall i :: 0 <= i < |parts| ==> sep !in parts[i]
    ensures Split(Join(parts, sep), sep) == parts
    decreases |parts|
  {
    if |parts| == 1 {
      SplitNoSeparator(parts[0], sep);
    } else {
      SplitJoin(parts[1..], sep);
      SplitFirstPiece(parts[0], sep, Join(parts[1..], sep));
      assert [parts[0]] + parts[1..] == parts;
    }
  }

  /** The token the gate reads from the header: the second space-separated
      piece, when the header is present, non-empty and that piece is
      non-empty. The scheme word before the first space is not checked. */
  function BearerToken(header: Option<string>): (token: Option<string>)
    ensures token.Some? ==> token.value != [] && ' ' !in token.value
    ensures token.Some? ==> header.Some? && ' ' in header.value
  {
    match header
    case None => None
    case Some(h) =>
      if h == "" then None
      else
        var parts := Split(h, ' ');
        if |parts| < 2 || parts[1] == "" then None
        else
          assert ' ' in h by {
            assert h == parts[0] + [' '] + Join(parts[1..], ' ');
            assert h[|parts[0]|] == ' ';
          }
          Some(parts[1])
  }

  /** A token fits in an `Authorization` header: non-empty and free of
      spaces, as a JWT's base64url segments are. */
  predicate HeaderSafe(token: string)
  {
    token != "" && ' ' !in token
  }

  /** The gate reads the second space-separated piece of the header, whatever
      the scheme word before it is and whatever follows the next space: a
      header `<scheme> <t><tail>`, with `tail` empty or starting a new
      piece, yields `t`, or no token when `t` is empty. */
  lemma BearerTokenOfHeader(scheme: string, t: string, tail: string)
    requires ' ' !in scheme && ' ' !in t
    requires tail == "" || tail[0] == ' '
    ensures BearerToken(Some(scheme + " " + t + tail)) == (if t == "" then None else Some(t))
  {
    var h := scheme + " " + t + tail;
    if tail == "" {
      assert h == scheme + [' '] + t;
      SplitFirstPiece(scheme, ' ', t);
      SplitNoSeparator(t, ' ');
    } else {
      var rest := t + [' '] + tail[1..];
      assert h == scheme + [' '] + rest;
      SplitFirstPiece(scheme, ' ', rest);
      SplitFirstPiece(t, ' ', tail[1..]);
    }
  }

  /** A header without any space carries no token. */
  lemma NoSpaceNoToken(h: string)
    requires ' ' !in h
    ensures BearerToken(Some(h)) == None
  {
    if h != "" {
      SplitNoSeparator(h, ' ');
    }
  }
}
