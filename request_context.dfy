/** The per-request context built in the `context` callback of
    `App.listen` (src/app.ts): the bearer token taken from the
    `Authorization` header. */
module RequestContext {
  import opened Wrappers

  /** The `token` entry of the context. JavaScript keeps `null` (no usable
      header) apart from `undefined` (the header is `Bearer…` with no space,
      so the split has no second piece). */
  datatype TokenValue = Null | Undefined | Token(value: string)

  const Scheme: string := "Bearer"
  const Separator: char := ' '

  /** `s.split(sep)` for a one-character separator: the pieces between
      occurrences of `sep`, empty pieces included, always at least one. */
  function Split(s: string, sep: char): (pieces: seq<string>)
    ensures |pieces| >= 1
    decreases |s|
  {
    if |s| == 0 then [""]
    else
      var rest := Split(s[1..], sep);
      if s[0] == sep then [""] + rest
      else [[s[0]] + rest[0]] + rest[1..]
  }

  /** `pieces.join(sep)`: the pieces with `sep` between neighbours. */
  function Join(pieces: seq<string>, sep: char): (s: string)
    requires |pieces| >= 1
    decreases |pieces|
  {
    if |pieces| == 1 then pieces[0]
    else pieces[0] + [sep] + Join(pieces[1..], sep)
  }

  /** Splitting and joining again gives back the original string. */
  lemma {:induction false} JoinSplit(s: string, sep: char)
    ensures Join(Split(s, sep), sep) == s
    decreases |s|
  {
    if |s| > 0 {
      var rest := Split(s[1..], sep);
      JoinSplit(s[1..], sep);
      if s[0] == sep {
        assert Split(s, sep) == [""] + rest;
        assert s == [sep] + s[1..];
      } else {
        var pieces := Split(s, sep);
        assert pieces == [[s[0]] + rest[0]] + rest[1..];
        if |rest| == 1 {
          assert s == [s[0]] + rest[0];
        } else {
          assert pieces[1..] == rest[1..];
          assert Join(rest, sep) == rest[0] + [sep] + Join(rest[1..], sep);
          assert s == [s[0]] + s[1..];
        }
      }
    }
  }

  /** No piece of a split contains the separator. */
  lemma {:induction false} SplitPiecesFree(s: string, sep: char)
    ensures forall i :: 0 <= i < |Split(s, sep)| ==> sep !in Split(s, sep)[i]
    decreases |s|
  {
    if |s| > 0 {
      SplitPiecesFree(s[1..], sep);
    }
  }

  /** A split has more than one piece exactly when the separator occurs. */
  lemma {:induction false} SplitSeveral(s: string, sep: char)
    ensures |Split(s, sep)| > 1 <==> sep in s
    decreases |s|
  {
    if |s| > 0 {
      SplitSeveral(s[1..], sep);
      assert s == [s[0]] + s[1..];
    }
  }

  /** A leading run free of the separator becomes the start of the first
      piece; the other pieces are those of the remainder. */
  lemma {:induction false} SplitFreePrefix(p: string, rest: string, sep: char)
    requires sep !in p
    ensures Split(p + rest, sep) == [p + Split(rest, sep)[0]] + Split(rest, sep)[1..]
    decreases |p|
  {
    if |p| > 0 {
      var s, r := p + rest, Split(rest, sep);
      assert p[0] in p;
      assert s[0] == p[0] && s[1..] == p[1..] + rest;
      SplitFreePrefix(p[1..], rest, sep);
      var inner := Split(s[1..], sep);
      assert inner == [p[1..] + r[0]] + r[1..];
      assert Split(s, sep) == [[p[0]] + inner[0]] + inner[1..];
      assert [p[0]] + (p[1..] + r[0]) == p + r[0];
    } else {
      var r := Split(rest, sep);
      assert p + rest == rest && p + r[0] == r[0];
      assert r == [r[0]] + r[1..];
    }
  }

  /** Joining separator-free pieces and splitting again gives back the
      pieces: `Split` is the inverse of `Join`. */
  lemma {:induction false} SplitJoin(pieces: seq<string>, sep: char)
    requires |pieces| >= 1
    requires forall i :: 0 <= i < |pieces| ==> sep !in pieces[i]
    ensures Split(Join(pieces, sep), sep) == pieces
    decreases |pieces|
  {
    if |pieces| == 1 {
      SplitFreePrefix(pieces[0], "", sep);
      assert pieces[0] + "" == pieces[0];
    } else {
      var tail := Join(pieces[1..], sep);
      SplitJoin(pieces[1..], sep);
      assert Join(pieces, sep) == pieces[0] + ([sep] + tail);
      SplitFreePrefix(pieces[0], [sep] + tail, sep);
      assert ([sep] + tail)[1..] == tail;
      assert Split([sep] + tail, sep) == [""] + pieces[1..];
      assert pieces[0] + "" == pieces[0];
    }
  }

  /** The `token` of the context object returned for a request with an
      optional `Authorization` header:
      `auth && auth.startsWith('Bearer') ? auth.split(' ')[1] : null`.
      A missing header and an empty one (falsy in JavaScript) give `null`,
      as does any header without the `Bearer` prefix; otherwise the second
      space-separated piece, or `undefined` when there is none. */
  function ExtractToken(authorization: Option<string>): (t: TokenValue)
    ensures t.Null? <==> authorization.None? || !(Scheme <= authorization.value)
    ensures t.Undefined? <==>
      authorization.Some? && Scheme <= authorization.value && Separator !in authorization.value
    ensures t.Token? ==> Separator !in t.value
    ensures t.Token? ==>
      && authorization.Some?
      && |Split(authorization.value, Separator)| > 1
      && t.value == Split(authorization.value, Separator)[1]
  {
    if authorization.Some? && authorization.value != "" && Scheme <= authorization.value then
      var h := authorization.value;
      var pieces := Split(h, Separator);
      SplitSeveral(h, Separator);
      SplitPiecesFree(h, Separator);
      if |pieces| > 1 then Token(pieces[1]) else Undefined
    else
      Null
  }

  /** A missing or an empty header gives `null`. */
  lemma MissingOrEmptyHeader()
    ensures ExtractToken(None) == Null
    ensures ExtractToken(Some("")) == Null
  {
  }

  /** A header made of a `Bearer`-prefixed word, a space, a token without
      spaces and then nothing or a further space-led remainder yields that
      token. This covers `Bearer abc123`, `BearerX y` and `Bearer a b`. */
  lemma {:induction false} BearerSecondComponent(scheme: string, token: string, tail: string)
    requires Scheme <= scheme && Separator !in scheme
    requires Separator !in token
    requires tail == [] || tail[0] == Separator
    ensures ExtractToken(Some(scheme + [Separator] + token + tail)) == Token(token)
  {
    var h := scheme + [Separator] + token + tail;
    assert h == scheme + ([Separator] + token + tail);
    assert h[..|Scheme|] == scheme[..|Scheme|];
    SplitFreePrefix(scheme, [Separator] + token + tail, Separator);
    assert ([Separator] + token + tail)[1..] == token + tail;
    SplitFreePrefix(token, tail, Separator);
    if tail == [] {
      assert token + tail == token;
    } else {
      assert tail == [Separator] + tail[1..];
    }
  }

  /** The concrete cases: `Bearer abc123` gives `abc123`, `BearerX y` gives
      `y`, `Bearer a b` gives `a`, `Basic xyz` gives `null`, `Bearer` alone
      gives `undefined`. */
  lemma Examples()
    ensures ExtractToken(Some("Bearer abc123")) == Token("abc123")
    ensures ExtractToken(Some("BearerX y")) == Token("y")
    ensures ExtractToken(Some("Bearer a b")) == Token("a")
    ensures ExtractToken(Some("Basic xyz")) == Null
    ensures ExtractToken(Some("Bearer")) == Undefined
  {
    BearerSecondComponent("Bearer", "abc123", "");
    assert "Bearer" + [Separator] + "abc123" + "" == "Bearer abc123";
    BearerSecondComponent("BearerX", "y", "");
    assert "BearerX" + [Separator] + "y" + "" == "BearerX y";
    BearerSecondComponent("Bearer", "a", " b");
    assert "Bearer" + [Separator] + "a" + " b" == "Bearer a b";
    assert !(Scheme <= "Basic xyz") by { assert "Basic xyz"[1] != Scheme[1]; }
  }
}
