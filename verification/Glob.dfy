/** The ignore globs of `orchestration/plugin/apply.go`: what a glob means, the regular expression
    text it is compiled to, and that the text means the same. A glob is taken as its bytes, one
    char each; a path is a sequence of characters. */
module Glob {
  import opened Wrappers

  // ---- Meaning of a glob ----

  predicate NoNewline(s: string) { '\n' !in s }
  predicate NoSlash(s: string) { '/' !in s }

  /** Glob matching without the trailing-directory rule: `**` crosses slashes (though not newlines),
      `*` stays within a segment, `?` is one character other than a slash. */
  predicate MatchBody(g: string, p: string)
    decreases |g|
  {
    if g == "" then p == ""
    else if g[0] == '*' && |g| > 1 && g[1] == '*' then
      exists k :: 0 <= k <= |p| && NoNewline(p[..k]) && MatchBody(g[2..], p[k..])
    else if g[0] == '*' then
      exists k :: 0 <= k <= |p| && NoSlash(p[..k]) && MatchBody(g[1..], p[k..])
    else
      p != "" && (if g[0] == '?' then p[0] != '/' else p[0] == g[0]) && MatchBody(g[1..], p[1..])
  }

  predicate EndsInTree(g: string)
  {
    |g| >= 3 && g[|g| - 3..] == "/**"
  }

  /** A trailing slash and double star also match the directory itself. */
  predicate Matches(g: string, p: string)
  {
    if EndsInTree(g) then
      var dir := g[..|g| - 3];
      || MatchBody(dir, p)
      || exists k :: 0 <= k < |p| && p[k] == '/' && MatchBody(dir, p[..k]) && NoNewline(p[k + 1..])
    else MatchBody(g, p)
  }

  // ---- Regular expressions ----

  datatype Regex =
    | Eps | Chr(c: char) | Dot | NotSlash
    | Many(r: Regex) | Maybe(r: Regex) | Cat(a: Regex, b: Regex) | Alt(a: Regex, b: Regex)

  /** The language of an expression; `.` excludes the newline, a negated class does not. */
  predicate In(r: Regex, s: string)
    decreases r, |s|
  {
    match r
    case Eps => s == ""
    case Chr(c) => s == [c]
    case Dot => |s| == 1 && s[0] != '\n'
    case NotSlash => |s| == 1 && s[0] != '/'
    case Many(q) => s == "" || exists k :: 0 < k <= |s| && In(q, s[..k]) && In(r, s[k..])
    case Maybe(q) => s == "" || In(q, s)
    case Cat(a, b) => exists k :: 0 <= k <= |s| && In(a, s[..k]) && In(b, s[k..])
    case Alt(a, b) => In(a, s) || In(b, s)
  }

  predicate Meta(c: char)
  {
    c in "\\.+*?()|[]{}^$"
  }

  /** regexp.QuoteMeta of one character. */
  function Quote(c: char): string
  {
    if Meta(c) then ['\\', c] else [c]
  }

  // ---- Reading an expression, as RE2 does ----

  /** A postfix operator applies to the atom before it. */
  function Postfix(r: Regex, text: string): (Regex, string)
  {
    if text != "" && text[0] == '*' then (Many(r), text[1..])
    else if text != "" && text[0] == '+' then (Cat(r, Many(r)), text[1..])
    else if text != "" && text[0] == '?' then (Maybe(r), text[1..])
    else (r, text)
  }

  /** Reads alternatives, up to a closing parenthesis, an end anchor, or the end of the text. None is an
      error, or a construct outside this fragment: counted repetition, other classes, anchors inside,
      escapes other than of punctuation, a repetition of nothing. */
  function Parse(text: string): (res: Option<(Regex, string)>)
    ensures res.Some? ==> |res.value.1| <= |text|
    decreases |text|, 2
  {
    var first := Sequence(text);
    if first.None? || first.value.1 == "" || first.value.1[0] != '|' then first
    else
      var rest := Parse(first.value.1[1..]);
      if rest.None? then None else Some((Alt(first.value.0, rest.value.0), rest.value.1))
  }

  function Sequence(text: string): (res: Option<(Regex, string)>)
    ensures res.Some? ==> |res.value.1| <= |text|
    decreases |text|, 1
  {
    if text == "" || text[0] == ')' || text[0] == '$' || text[0] == '|' then Some((Eps, text))
    else
      var atom := ParseAtom(text);
      if atom.None? then None
      else
        var post := Postfix(atom.value.0, atom.value.1);
        var rest := Sequence(post.1);
        if rest.None? then None else Some((Cat(post.0, rest.value.0), rest.value.1))
  }

  predicate Alphanumeric(c: char)
  {
    '0' <= c <= '9' || 'A' <= c <= 'Z' || 'a' <= c <= 'z'
  }

  function ParseAtom(text: string): (res: Option<(Regex, string)>)
    requires text != ""
    ensures res.Some? ==> |res.value.1| < |text|
    decreases |text|, 0
  {
    match text[0]
    case '.' => Some((Dot, text[1..]))
    case '[' => if |text| >= 4 && text[1] == '^' && text[2] == '/' && text[3] == ']' then Some((NotSlash, text[4..])) else None
    case '\\' =>
      // an escaped ASCII character that is neither letter nor digit stands for itself
      if |text| >= 2 && text[1] < '\U{80}' && !Alphanumeric(text[1]) then Some((Chr(text[1]), text[2..])) else None
    case '(' =>
      var inner := Parse(text[1..]);
      if inner.Some? && inner.value.1 != "" && inner.value.1[0] == ')'
      then Some((inner.value.0, inner.value.1[1..])) else None
    case '*' => None
    case '+' => None
    case '?' => None
    case ')' => None
    case '|' => None
    case '{' => None
    case '^' => None
    case '$' => None
    case c => Some((Chr(c), text[1..]))  // '}' and ']' stand for themselves here
  }

  /** An expression anchored at both ends, as regexp.Compile reads it; None is a compile error. */
  function Compiled(text: string): Option<Regex>
  {
    if text == "" || text[0] != '^' then None
    else
      var r := Parse(text[1..]);
      if r.Some? && r.value.1 == "$" then Some(r.value.0) else None
  }

  // ---- The compiler ----

  /** The text written for the glob from some position on, before the suffix. */
  function BodyText(g: string): string
  {
    if g == "" then ""
    else if g[0] == '*' && |g| > 1 && g[1] == '*' then ".*" + BodyText(g[2..])
    else if g[0] == '*' then "[^/]*" + BodyText(g[1..])
    else if g[0] == '?' then "[^/]" + BodyText(g[1..])
    else Quote(g[0]) + BodyText(g[1..])
  }

  const TREE_SUFFIX := "(/.*)?$"

  function Text(g: string): string
  {
    if EndsInTree(g) then "^" + BodyText(g[..|g| - 3]) + TREE_SUFFIX else "^" + BodyText(g) + "$"
  }

  /** What BodyText stands for, followed by `tail`. */
  function BodyRegex(g: string, tail: Regex): Regex
    decreases |g|
  {
    if g == "" then tail
    else if g[0] == '*' && |g| > 1 && g[1] == '*' then Cat(Many(Dot), BodyRegex(g[2..], tail))
    else if g[0] == '*' then Cat(Many(NotSlash), BodyRegex(g[1..], tail))
    else if g[0] == '?' then Cat(NotSlash, BodyRegex(g[1..], tail))
    else Cat(Chr(g[0]), BodyRegex(g[1..], tail))
  }

  const TREE := Cat(Maybe(Cat(Chr('/'), Cat(Many(Dot), Eps))), Eps)

  predicate StartsPlain(text: string)
  {
    text != "" && text[0] != '*' && text[0] != '+' && text[0] != '?'
  }

  lemma BodyTextPlain(g: string, tail: string)
    requires StartsPlain(tail)
    ensures StartsPlain(BodyText(g) + tail)
  {
    if g != "" {
      assert BodyText(g) != "" && StartsPlain(BodyText(g));
    }
  }

  lemma AtomDot(t: string)
    ensures ParseAtom("." + t) == Some((Dot, t))
  {
    assert ("." + t)[1..] == t;
  }

  lemma AtomNotSlash(t: string)
    ensures ParseAtom("[^/]" + t) == Some((NotSlash, t))
  {
    assert ("[^/]" + t)[..4] == "[^/]" && ("[^/]" + t)[4..] == t;
  }

  lemma AtomQuote(c: char, t: string)
    ensures ParseAtom(Quote(c) + t) == Some((Chr(c), t))
  {
    assert (Quote(c) + t)[|Quote(c)|..] == t;
  }

  predicate StartsSequence(text: string)
  {
    text != "" && text[0] != ')' && text[0] != '$' && text[0] != '|'
  }

  lemma ParseOne(text: string, r: Regex, op: string, rest: string)
    requires StartsSequence(text)
    requires ParseAtom(text) == Some((r, op + rest))
    requires op == "*" || (op == "" && StartsPlain(rest))
    ensures var whole := Sequence(text); var p := Sequence(rest);
            if p.None? then whole.None?
            else whole == Some((Cat(if op == "*" then Many(r) else r, p.value.0), p.value.1))
  {
    hide ParseAtom;
    assert op == "*" ==> (op + rest)[1..] == rest;
    assert op == "" ==> op + rest == rest;
  }

  /** The one item at the head of a glob: its expression, the text it stands for, and what follows. */
  function HeadRegex(g: string): Regex
    requires g != ""
  {
    if g[0] == '*' then Many(if |g| > 1 && g[1] == '*' then Dot else NotSlash)
    else if g[0] == '?' then NotSlash else Chr(g[0])
  }

  function Rest(g: string): string
    requires g != ""
  {
    if g[0] == '*' && |g| > 1 && g[1] == '*' then g[2..] else g[1..]
  }

  function HeadText(g: string): string
    requires g != ""
  {
    if g[0] == '*' then if |g| > 1 && g[1] == '*' then ".*" else "[^/]*"
    else if g[0] == '?' then "[^/]" else Quote(g[0])
  }

  lemma HeadOfBody(g: string, tail: Regex)
    requires g != ""
    ensures BodyText(g) == HeadText(g) + BodyText(Rest(g))
    ensures BodyRegex(g, tail) == Cat(HeadRegex(g), BodyRegex(Rest(g), tail)) && |Rest(g)| < |g|
  {
  }

  /** The text of one item reads back as its expression, in front of any further item. */
  lemma ParseHead(g: string, rest: string)
    requires g != "" && StartsPlain(rest)
    ensures var whole := Sequence(HeadText(g) + rest); var p := Sequence(rest);
            if p.None? then whole.None? else whole == Some((Cat(HeadRegex(g), p.value.0), p.value.1))
  {
    hide Sequence, ParseAtom, Meta;
    if g[0] == '*' && |g| > 1 && g[1] == '*' {
      AtomDot("*" + rest);
      assert HeadText(g) + rest == "." + ("*" + rest);
      ParseOne(HeadText(g) + rest, Dot, "*", rest);
    } else if g[0] == '*' {
      AtomNotSlash("*" + rest);
      assert HeadText(g) + rest == "[^/]" + ("*" + rest);
      ParseOne(HeadText(g) + rest, NotSlash, "*", rest);
    } else if g[0] == '?' {
      AtomNotSlash(rest);
      assert "" + rest == rest;
      ParseOne(HeadText(g) + rest, NotSlash, "", rest);
    } else {
      AtomQuote(g[0], rest);
      QuotePlain(g[0], rest);
      assert "" + rest == rest;
      ParseOne(HeadText(g) + rest, Chr(g[0]), "", rest);
    }
  }

  lemma QuotePlain(c: char, t: string)
    ensures StartsSequence(Quote(c) + t)
  {
  }

  /** Reading back what was written: every special character of the glob comes out as meant. */
  lemma {:induction false} ParseBody(g: string, tail: string)
    requires StartsPlain(tail)
    ensures var whole := Sequence(BodyText(g) + tail); var p := Sequence(tail);
            if p.None? then whole.None? else whole == Some((BodyRegex(g, p.value.0), p.value.1))
    decreases |g|
  {
    if g == "" {
      assert BodyText(g) + tail == tail;
    } else {
      hide Sequence, HeadText, HeadRegex, Rest, BodyText, BodyRegex, StartsPlain;
      var rest := BodyText(Rest(g)) + tail;
      HeadOfBody(g, Eps);
      ParseBody(Rest(g), tail);
      BodyTextPlain(Rest(g), tail);
      assert BodyText(g) + tail == HeadText(g) + rest;
      ParseHead(g, rest);
      if Sequence(tail).Some? {
        HeadOfBody(g, Sequence(tail).value.0);
      }
    }
  }

  lemma ParseInner()
    ensures Parse("/.*)?$") == Some((Cat(Chr('/'), Cat(Many(Dot), Eps)), ")?$"))
  {
    assert Sequence(")?$") == Some((Eps, ")?$"));
    assert ".*)?$"[1..] == "*)?$" && "*)?$"[1..] == ")?$";
    assert ParseAtom(".*)?$") == Some((Dot, "*)?$"));
    assert Sequence(".*)?$") == Some((Cat(Many(Dot), Eps), ")?$"));
    assert "/.*)?$"[1..] == ".*)?$";
    assert ParseAtom("/.*)?$") == Some((Chr('/'), ".*)?$"));
    assert Sequence("/.*)?$") == Some((Cat(Chr('/'), Cat(Many(Dot), Eps)), ")?$"));
  }

  lemma ParseTreeSuffix()
    ensures Sequence(TREE_SUFFIX) == Some((TREE, "$")) && Sequence("$") == Some((Eps, "$"))
  {
    ParseInner();
    hide Parse;
    var text := TREE_SUFFIX;
    assert text[1..] == "/.*)?$";
    assert ")?$"[1..] == "?$" && "?$"[1..] == "$";
    assert ParseAtom(text) == Some((Cat(Chr('/'), Cat(Many(Dot), Eps)), "?$"));
    assert Sequence("$") == Some((Eps, "$"));
  }

  lemma CompiledIs(text: string, r: Regex)
    requires Sequence(text) == Some((r, "$"))
    ensures Compiled("^" + text) == Some(r)
  {
    hide Sequence;
    assert ("^" + text)[1..] == text;
  }

  function Meant(g: string): Regex
  {
    if EndsInTree(g) then BodyRegex(g[..|g| - 3], TREE) else BodyRegex(g, Eps)
  }

  /** The written text always compiles, to the expression it was meant to be. */
  lemma TextCompiles(g: string)
    ensures Compiled(Text(g)) == Some(Meant(g))
  {
    hide Sequence, Parse, BodyText, BodyRegex, Compiled, StartsPlain;
    ParseTreeSuffix();
    if EndsInTree(g) {
      var body := g[..|g| - 3];
      assert StartsPlain(TREE_SUFFIX) by { SuffixesPlain(); }
      ParseBody(body, TREE_SUFFIX);
      CompiledIs(BodyText(body) + TREE_SUFFIX, BodyRegex(body, TREE));
      assert Text(g) == "^" + (BodyText(body) + TREE_SUFFIX);
    } else {
      assert StartsPlain("$") by { SuffixesPlain(); }
      ParseBody(g, "$");
      CompiledIs(BodyText(g) + "$", BodyRegex(g, Eps));
      assert Text(g) == "^" + (BodyText(g) + "$");
    }
  }

  lemma SuffixesPlain()
    ensures StartsPlain(TREE_SUFFIX) && StartsPlain("$")
  {
  }

  // ---- Meaning preserved ----

  lemma {:induction false} ManyDot(s: string)
    ensures In(Many(Dot), s) <==> NoNewline(s)
    decreases |s|
  {
    if s != "" {
      ManyDot(s[1..]);
      assert s == [s[0]] + s[1..];
      assert s[..1] == [s[0]];
    }
  }

  lemma {:induction false} ManyNotSlash(s: string)
    ensures In(Many(NotSlash), s) <==> NoSlash(s)
    decreases |s|
  {
    if s != "" {
      ManyNotSlash(s[1..]);
      assert s == [s[0]] + s[1..];
      assert s[..1] == [s[0]];
    }
  }

  /** `g` matches some beginning of `p` and `tail` the remainder. */
  predicate SplitMatch(g: string, tail: Regex, p: string)
  {
    exists k :: 0 <= k <= |p| && MatchBody(g, p[..k]) && In(tail, p[k..])
  }

  lemma CatSplits(a: Regex, b: Regex, s: string) returns (k: nat)
    requires In(Cat(a, b), s)
    ensures k <= |s| && In(a, s[..k]) && In(b, s[k..])
  {
    k :| 0 <= k <= |s| && In(a, s[..k]) && In(b, s[k..]);
  }

  lemma CatJoins(a: Regex, b: Regex, s: string, k: nat)
    requires k <= |s| && In(a, s[..k]) && In(b, s[k..])
    ensures In(Cat(a, b), s)
  {
  }

  lemma HeadSplits(g: string, p: string) returns (k: nat)
    requires g != "" && MatchBody(g, p)
    ensures k <= |p| && In(HeadRegex(g), p[..k]) && MatchBody(Rest(g), p[k..])
  {
    if g[0] == '*' {
      var double := |g| > 1 && g[1] == '*';
      k :| 0 <= k <= |p| && (if double then NoNewline(p[..k]) else NoSlash(p[..k])) && MatchBody(Rest(g), p[k..]);
      ManyDot(p[..k]);
      ManyNotSlash(p[..k]);
    } else {
      k := 1;
      assert p[..1] == [p[0]];
    }
  }

  lemma HeadJoins(g: string, p: string, k: nat)
    requires g != "" && k <= |p| && In(HeadRegex(g), p[..k]) && MatchBody(Rest(g), p[k..])
    ensures MatchBody(g, p)
  {
    if g[0] == '*' {
      ManyDot(p[..k]);
      ManyNotSlash(p[..k]);
    } else {
      assert k == 1 && p[..1] == [p[0]];
    }
  }

  lemma {:induction false} BodyMeans(g: string, tail: Regex, p: string)
    ensures In(BodyRegex(g, tail), p) <==> SplitMatch(g, tail, p)
    decreases |g|
  {
    if g == "" {
      assert p[..0] == "" && p[0..] == p;
      if SplitMatch(g, tail, p) {
        var k :| 0 <= k <= |p| && MatchBody(g, p[..k]) && In(tail, p[k..]);
        assert k == 0;
      }
    } else {
      hide In, BodyRegex, SplitMatch;
      HeadOfBody(g, tail);
      if In(BodyRegex(g, tail), p) {
        var k := CatSplits(HeadRegex(g), BodyRegex(Rest(g), tail), p);
        BodyMeans(Rest(g), tail, p[k..]);
        SplitGrows(g, tail, p, k);
      }
      if SplitMatch(g, tail, p) {
        var k := SplitShrinks(g, tail, p);
        BodyMeans(Rest(g), tail, p[k..]);
        CatJoins(HeadRegex(g), BodyRegex(Rest(g), tail), p, k);
      }
    }
  }

  lemma SplitGrows(g: string, tail: Regex, p: string, k: nat)
    requires g != "" && k <= |p| && In(HeadRegex(g), p[..k]) && SplitMatch(Rest(g), tail, p[k..])
    ensures SplitMatch(g, tail, p)
  {
    hide In, MatchBody, HeadRegex, Rest;
    var q := p[k..];
    var j :| 0 <= j <= |q| && MatchBody(Rest(g), q[..j]) && In(tail, q[j..]);
    var m := k + j;
    assert p[..m][..k] == p[..k] && p[..m][k..] == q[..j] && p[m..] == q[j..];
    HeadJoins(g, p[..m], k);
  }

  lemma SplitShrinks(g: string, tail: Regex, p: string) returns (k: nat)
    requires g != "" && SplitMatch(g, tail, p)
    ensures k <= |p| && In(HeadRegex(g), p[..k]) && SplitMatch(Rest(g), tail, p[k..])
  {
    hide In, MatchBody, HeadRegex, Rest;
    var m :| 0 <= m <= |p| && MatchBody(g, p[..m]) && In(tail, p[m..]);
    k := HeadSplits(g, p[..m]);
    var q := p[k..];
    assert p[..m][..k] == p[..k] && p[..m][k..] == q[..m - k] && p[m..] == q[m - k..];
  }

  lemma TreeMeans(s: string)
    ensures In(TREE, s) <==> s == "" || (s[0] == '/' && NoNewline(s[1..]))
  {
    var inner := Cat(Many(Dot), Eps);
    var slash := Cat(Chr('/'), inner);
    forall t
      ensures In(inner, t) <==> NoNewline(t)
    {
      ManyDot(t);
      assert t[..|t|] == t && t[|t|..] == "";
      if In(inner, t) {
        var k :| 0 <= k <= |t| && In(Many(Dot), t[..k]) && In(Eps, t[k..]);
        assert k == |t|;
      }
    }
    assert s[..|s|] == s && s[|s|..] == "";
    if In(TREE, s) && s != "" {
      var k :| 0 <= k <= |s| && In(Maybe(slash), s[..k]) && In(Eps, s[k..]);
      assert k == |s|;
      assert In(slash, s);
      var j :| 0 <= j <= |s| && In(Chr('/'), s[..j]) && In(inner, s[j..]);
      assert j == 1;
    }
    if s != "" && s[0] == '/' && NoNewline(s[1..]) {
      assert s[..1] == ['/'] && In(Chr('/'), s[..1]) && In(inner, s[1..]);
      assert In(slash, s);
      assert In(Maybe(slash), s[..|s|]) && In(Eps, s[|s|..]);
    }
    if s == "" {
      assert In(Maybe(slash), s[..0]) && In(Eps, s[0..]);
    }
  }

  /** The compiled expression matches a path exactly when the glob does. */
  lemma CompilationPreservesMeaning(g: string, p: string)
    ensures Compiled(Text(g)).Some? && (In(Compiled(Text(g)).value, p) <==> Matches(g, p))
  {
    TextCompiles(g);
    if EndsInTree(g) {
      var dir := g[..|g| - 3];
      BodyMeans(dir, TREE, p);
      forall k | 0 <= k <= |p| {
        TreeMeans(p[k..]);
      }
      assert p[..|p|] == p && p[|p|..] == "";
      if SplitMatch(dir, TREE, p) {
        var k :| 0 <= k <= |p| && MatchBody(dir, p[..k]) && In(TREE, p[k..]);
        assert k < |p| ==> p[k..][0] == p[k] && p[k..][1..] == p[k + 1..];
      }
      if k :| 0 <= k < |p| && p[k] == '/' && MatchBody(dir, p[..k]) && NoNewline(p[k + 1..]) {
        assert p[k..][0] == p[k] && p[k..][1..] == p[k + 1..];
        assert In(TREE, p[k..]);
      }
    } else {
      BodyMeans(g, Eps, p);
      assert p[..|p|] == p && p[|p|..] == "";
      if SplitMatch(g, Eps, p) {
        var k :| 0 <= k <= |p| && MatchBody(g, p[..k]) && In(Eps, p[k..]);
        assert k == |p|;
      }
    }
  }

  /** A tree pattern that matches a path matches everything below it. */
  lemma TreePatternCoversBelow(g: string, p: string, below: string)
    requires EndsInTree(g) && Matches(g, p) && NoNewline(below)
    ensures Matches(g, p + "/" + below)
  {
    var dir := g[..|g| - 3];
    var q := p + "/" + below;
    if MatchBody(dir, p) {
      assert q[..|p|] == p && q[|p|] == '/' && q[|p| + 1..] == below;
    } else {
      var k :| 0 <= k < |p| && p[k] == '/' && MatchBody(dir, p[..k]) && NoNewline(p[k + 1..]);
      assert q[..k] == p[..k] && q[k] == '/' && q[k + 1..] == p[k + 1..] + "/" + below;
    }
  }

  lemma PreservedForAll(g: string)
    ensures Compiled(Text(g)).Some? && forall p :: In(Compiled(Text(g)).value, p) <==> Matches(g, p)
  {
    CompilationPreservesMeaning(g, "");
    forall p {
      CompilationPreservesMeaning(g, p);
    }
  }

  lemma WriteHead(text: string, g: string)
    requires g != ""
    ensures text + BodyText(g) == (text + HeadText(g)) + BodyText(Rest(g))
  {
    hide HeadText, Rest, BodyText;
    HeadOfBody(g, Eps);
  }

  /** The compile loop: one pass over the glob, writing as it goes. */
  method GlobToRegexp(glob: string) returns (text: string)
    ensures Compiled(text).Some?
    ensures forall p :: In(Compiled(text).value, p) <==> Matches(glob, p)
  {
    hide Compiled, In, Matches, BodyText, Quote;
    PreservedForAll(glob);
    var g, suffix := glob, "$";
    if EndsInTree(glob) {
      g := glob[..|glob| - 3];
      suffix := TREE_SUFFIX;
    }
    text := "^";
    var i := 0;
    assert g[0..] == g;
    while i < |g|
      invariant i <= |g|
      invariant text + BodyText(g[i..]) == "^" + BodyText(g)
    {
      WriteHead(text, g[i..]);
      assert g[i..][1..] == g[i + 1..];
      if g[i] == '*' {
        if i + 1 < |g| && g[i + 1] == '*' {
          assert g[i..][2..] == g[i + 2..];
          text := text + ".*";
          i := i + 1;
        } else {
          text := text + "[^/]*";
        }
      } else if g[i] == '?' {
        text := text + "[^/]";
      } else {
        text := text + Quote(g[i]);
      }
      i := i + 1;
    }
    assert BodyText(g[i..]) == "" by { EmptyText(); assert g[i..] == ""; }
    assert text + "" == text;
    assert text == "^" + BodyText(g);
    text := text + suffix;
    assert text == Text(glob);
  }

  lemma EmptyText()
    ensures BodyText("") == ""
  {
  }
}
