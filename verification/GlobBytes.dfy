/** Globs outside ASCII. The compiler of `orchestration/plugin/apply.go` goes through a glob byte by
    byte and quotes each byte as a character of its own, while paths are matched by characters. */
module GlobBytes {
  import opened Wrappers
  import opened Glob

  /** The UTF-8 encoding of one character, a byte per char. */
  function Utf8(c: char): string
  {
    var n := c as int;
    if n < 0x80 then [c]
    else if n < 0x800 then [(0xC0 + n / 0x40) as char, Trail(n)]
    else if n < 0x1_0000 then [(0xE0 + n / 0x1000) as char, Trail(n / 0x40), Trail(n)]
    else [(0xF0 + n / 0x4_0000) as char, Trail(n / 0x1000), Trail(n / 0x40), Trail(n)]
  }

  function Trail(n: nat): char { (0x80 + n % 0x40) as char }

  /** The glob as the compiler reads it, byte by byte. */
  function Bytes(g: string): string
  {
    if g == "" then "" else Bytes(g[..|g| - 1]) + Utf8(g[|g| - 1])
  }

  predicate Ascii(g: string) { forall i :: 0 <= i < |g| ==> g[i] < '\U{80}' }

  /** How many characters a match has at least: one for everything but stars. */
  function MinLen(g: string): nat
  {
    if g == "" then 0 else MinLen(g[..|g| - 1]) + if g[|g| - 1] == '*' then 0 else 1
  }

  lemma {:induction false} MinLenConcat(g: string, h: string)
    ensures MinLen(g + h) == MinLen(g) + MinLen(h)
  {
    if h == "" {
      assert g + h == g;
    } else {
      assert (g + h)[..|g + h| - 1] == g + h[..|h| - 1];
      MinLenConcat(g, h[..|h| - 1]);
    }
  }

  lemma MinLenHead(g: string)
    requires g != ""
    ensures MinLen(g) == MinLen(g[1..]) + if g[0] == '*' then 0 else 1
  {
    MinLenConcat([g[0]], g[1..]);
    assert g == [g[0]] + g[1..];
    assert [g[0]][..0] == "";
  }

  lemma MinLenRest(g: string)
    requires g != ""
    ensures MinLen(g) == MinLen(Rest(g)) + if g[0] == '*' then 0 else 1
  {
    MinLenHead(g);
    if g[0] == '*' && |g| > 1 && g[1] == '*' {
      MinLenHead(g[1..]);
      assert g[1..][1..] == g[2..];
    }
  }

  lemma {:induction false} MatchesAreLong(g: string, p: string)
    requires MatchBody(g, p)
    ensures |p| >= MinLen(g)
    decreases |g|
  {
    hide MinLen;
    if g == "" {
      assert MinLen(g) == 0 by { MinLenNone(); }
    } else {
      MinLenRest(g);
      if g[0] == '*' {
        var double := |g| > 1 && g[1] == '*';
        var k :| 0 <= k <= |p| && (if double then NoNewline(p[..k]) else NoSlash(p[..k])) && MatchBody(Rest(g), p[k..]);
        MatchesAreLong(Rest(g), p[k..]);
      } else {
        MatchesAreLong(g[1..], p[1..]);
      }
    }
  }

  lemma MinLenNone()
    ensures MinLen("") == 0
  {
  }

  /** A shortest match: nothing for each star, one character for each other item. */
  lemma {:induction false} ShortestMatch(g: string) returns (p: string)
    ensures MatchBody(g, p) && |p| == MinLen(g)
    decreases |g|
  {
    hide MinLen;
    if g == "" {
      p := "";
      MinLenNone();
    } else {
      MinLenRest(g);
      var rest := ShortestMatch(Rest(g));
      if g[0] == '*' {
        p := rest;
        assert p[..0] == "" && p[0..] == rest;
      } else {
        p := [if g[0] == '?' then 'x' else g[0]] + rest;
        assert p[1..] == rest;
      }
    }
  }

  lemma Utf8Length(c: char)
    ensures c < '\U{80}' ==> Utf8(c) == [c]
    ensures c >= '\U{80}' ==> |Utf8(c)| >= 2 && MinLen(Utf8(c)) == |Utf8(c)|
    ensures forall b :: b in Utf8(c) ==> (b < '\U{80}' <==> c < '\U{80}')
  {
    hide MinLen;
    if c >= '\U{80}' {
      NoStars(Utf8(c));
    }
  }

  lemma {:induction false} NoStars(s: string)
    requires '*' !in s
    ensures MinLen(s) == |s|
  {
    if s != "" { NoStars(s[..|s| - 1]); }
  }

  lemma {:induction false} AsciiBytes(g: string)
    requires Ascii(g)
    ensures Bytes(g) == g
  {
    if g != "" {
      var pre := g[..|g| - 1];
      assert g == pre + [g[|g| - 1]];
      AsciiConcat(pre, [g[|g| - 1]]);
      AsciiBytes(pre);
      Utf8Length(g[|g| - 1]);
    }
  }

  lemma AsciiConcat(g: string, h: string)
    ensures Ascii(g + h) <==> Ascii(g) && Ascii(h)
  {
    var gh := g + h;
    assert forall i :: 0 <= i < |g| ==> gh[i] == g[i];
    assert forall i :: 0 <= i < |h| ==> gh[|g| + i] == h[i];
  }

  lemma BytesSnoc(g: string)
    requires g != ""
    ensures var pre, c := g[..|g| - 1], g[|g| - 1];
            && Bytes(g) == Bytes(pre) + Utf8(c) && MinLen(g) == MinLen(pre) + MinLen([c])
            && (Ascii(g) <==> Ascii(pre) && c < '\U{80}')
  {
    var pre, c := g[..|g| - 1], g[|g| - 1];
    MinLenOne(c);
    AsciiConcat(pre, [c]);
    assert g == pre + [c];
    assert Ascii([c]) <==> [c][0] < '\U{80}';
  }

  lemma CharGrows(c: char)
    ensures MinLen(Utf8(c)) >= MinLen([c]) && (c >= '\U{80}' ==> MinLen(Utf8(c)) > MinLen([c]))
  {
    hide Utf8, MinLen;
    Utf8Length(c);
    MinLenOne(c);
  }

  /** A non-ASCII character makes every match of the bytes longer than some match of the glob. */
  lemma {:induction false} BytesGrow(g: string)
    ensures MinLen(Bytes(g)) >= MinLen(g)
    ensures !Ascii(g) ==> MinLen(Bytes(g)) > MinLen(g)
  {
    if g == "" {
      AsciiNone();
    } else {
      hide Utf8, MinLen, Ascii, Bytes;
      var pre, c := g[..|g| - 1], g[|g| - 1];
      BytesSnoc(g);
      BytesGrow(pre);
      CharGrows(c);
      MinLenConcat(Bytes(pre), Utf8(c));
    }
  }

  lemma AsciiNone()
    ensures Ascii("")
  {
  }

  lemma MinLenOne(c: char)
    ensures MinLen([c]) == if c == '*' then 0 else 1
  {
    assert [c][..0] == "";
  }

  lemma TreeByChars(g: string)
    ensures EndsInTree(g) <==> |g| >= 3 && g[|g| - 3] == '/' && g[|g| - 2] == '*' && g[|g| - 1] == '*'
    ensures EndsInTree(g) ==> g == g[..|g| - 3] + "/**"
  {
    if |g| >= 3 {
      assert g[|g| - 3..] == [g[|g| - 3], g[|g| - 2], g[|g| - 1]];
    }
  }

  lemma TreeKept(g: string)
    requires EndsInTree(g)
    ensures Bytes(g) == Bytes(g[..|g| - 3]) + "/**"
  {
    TreeByChars(g);
    hide EndsInTree, Bytes, Utf8;
    var g1, g2, g3 := g[..|g| - 1], g[..|g| - 2], g[..|g| - 3];
    assert g1[..|g1| - 1] == g2 && g2[..|g2| - 1] == g3;
    EndsInAscii(g);
    EndsInAscii(g1);
    EndsInAscii(g2);
    assert Bytes(g) == Bytes(g3) + ['/'] + ['*'] + ['*'];
  }

  lemma TreeShown(g: string)
    requires EndsInTree(Bytes(g))
    ensures EndsInTree(g)
  {
    TreeByChars(g);
    TreeByChars(Bytes(g));
    hide EndsInTree, Bytes, Utf8;
    BytesEndIn(g, '*');
    var g1 := g[..|g| - 1];
    BytesEndIn(g1, '*');
    BytesEndIn(g1[..|g1| - 1], '/');
  }

  /** The trailing-directory rule is recognised in the bytes exactly when it is in the glob. */
  lemma TreeInBytes(g: string)
    ensures EndsInTree(Bytes(g)) <==> EndsInTree(g)
    ensures EndsInTree(g) ==> Bytes(g) == Bytes(g[..|g| - 3]) + "/**"
  {
    hide Bytes;
    if EndsInTree(g) {
      TreeKept(g);
      TreeByChars(Bytes(g));
    }
    if EndsInTree(Bytes(g)) {
      TreeShown(g);
    }
  }

  lemma EndsInAscii(g: string)
    requires g != "" && g[|g| - 1] < '\U{80}'
    ensures Bytes(g) == Bytes(g[..|g| - 1]) + [g[|g| - 1]]
  {
  }

  /** A last byte below 0x80 is the last character. */
  lemma BytesEndIn(g: string, c: char)
    requires Bytes(g) != "" && Bytes(g)[|Bytes(g)| - 1] == c && c < '\U{80}'
    ensures g != "" && g[|g| - 1] == c && Bytes(g) == Bytes(g[..|g| - 1]) + [c]
  {
    var d := g[|g| - 1];
    Utf8Length(d);
    assert Bytes(g)[|Bytes(g)| - 1] == Utf8(d)[|Utf8(d)| - 1];
    assert Utf8(d)[|Utf8(d)| - 1] in Utf8(d);
  }

  /** The body of a glob whose bytes are compiled, and what its matches have in common. */
  function BodyOf(g: string): string { if EndsInTree(g) then g[..|g| - 3] else g }

  lemma TreeMatchesAreLong(g: string, p: string)
    requires Matches(g, p)
    ensures |p| >= MinLen(BodyOf(g))
  {
    hide MinLen, MatchBody;
    if EndsInTree(g) {
      var dir := g[..|g| - 3];
      if MatchBody(dir, p) {
        MatchesAreLong(dir, p);
      } else {
        var k :| 0 <= k < |p| && p[k] == '/' && MatchBody(dir, p[..k]) && NoNewline(p[k + 1..]);
        MatchesAreLong(dir, p[..k]);
      }
    } else {
      MatchesAreLong(g, p);
    }
  }

  /** The compiled text of a glob accepts a path. */
  predicate Accepts(text: string, p: string)
  {
    Compiled(text).Some? && In(Compiled(text).value, p)
  }

  lemma AcceptsMeaning(g: string)
    ensures forall p :: Accepts(Text(g), p) <==> Matches(g, p)
  {
    PreservedForAll(g);
  }

  lemma BodyInBytes(g: string)
    ensures BodyOf(Bytes(g)) == Bytes(BodyOf(g)) && (Ascii(g) <==> Ascii(BodyOf(g)))
  {
    TreeInBytes(g);
    TreeByChars(g);
    if EndsInTree(g) {
      assert Bytes(g)[..|Bytes(g)| - 3] == Bytes(BodyOf(g));
      AsciiConcat(BodyOf(g), "/**");
      assert Ascii("/**");
    }
  }

  /** A shortest match of a glob's body is a match of the glob. */
  lemma BodyMatches(g: string, p: string)
    requires MatchBody(BodyOf(g), p)
    ensures Matches(g, p)
  {
  }

  /** Compiling the bytes of a glob one at a time keeps its meaning if and only if the glob is ASCII. */
  lemma BytewiseExactly(g: string)
    ensures (forall p :: Accepts(Text(Bytes(g)), p) <==> Matches(g, p)) <==> Ascii(g)
  {
    AcceptsMeaning(Bytes(g));
    hide *;
    if Ascii(g) {
      AsciiBytes(g);
    } else {
      var p := Missed(g);
      assert Matches(g, p) && !Accepts(Text(Bytes(g)), p);
    }
  }

  /** A path that a non-ASCII glob matches and its bytes do not. */
  lemma Missed(g: string) returns (p: string)
    requires !Ascii(g)
    ensures Matches(g, p) && !Matches(Bytes(g), p)
  {
    BodyInBytes(g);
    hide *;
    BytesGrow(BodyOf(g));
    p := ShortestMatch(BodyOf(g));
    BodyMatches(g, p);
    if Matches(Bytes(g), p) {
      TreeMatchesAreLong(Bytes(g), p);
    }
  }

  /** So a glob that is a single character outside ASCII does not even match that character. */
  lemma NonAsciiGlobMisses(c: char)
    requires c >= '\U{80}'
    ensures Matches([c], [c]) && !Accepts(Text(Bytes([c])), [c])
  {
    AcceptsMeaning(Bytes([c]));
    BodyInBytes([c]);
    BytesGrow([c]);
    MinLenOne(c);
    assert [c][0] == c && !Ascii([c]) && BodyOf([c]) == [c];
    assert [c][1..] == "" && MatchBody([c], [c]);
    if Matches(Bytes([c]), [c]) {
      TreeMatchesAreLong(Bytes([c]), [c]);
    }
  }
}
