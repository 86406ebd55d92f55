/**
 Endpoint templates, `internal/domain/api/query/usage_query.go`: `{param}` becomes the expression
 `[^/?]+`, everything else is left as it is, and the result is used, anchored, as a regular expression.

 The regular expression engine is a parameter. What is assumed of it (`Faithful`) concerns patterns
 made of ordinary characters, dots and that one class only.
 */
module PathTemplate {
  import opened Wrappers

  const PARAM_CLASS := "[^/?]+"
  const LINE_FEED := '\n'
  const METACHARACTERS := {'\\', '.', '+', '*', '?', '(', ')', '|', '[', ']', '{', '}', '^', '$'}

  // ---------- From template to pattern ----------

  /** The position of the first `}`, or the length if there is none. */
  function FirstClose(t: string): (n: nat)
    ensures n <= |t|
  {
    if t == [] || t[0] == '}' then 0 else 1 + FirstClose(t[1..])
  }

  /** `\\{[^}]+}` matches at the start: an opening brace, at least one other character, a closing one. */
  predicate ParamStarts(t: string) {
    t != [] && t[0] == '{' && 1 < FirstClose(t) < |t|
  }

  /** `ReplaceAllString`. */
  function Expand(t: string): string
    decreases |t|
  {
    if t == [] then []
    else if ParamStarts(t) then PARAM_CLASS + Expand(t[FirstClose(t) + 1..])
    else [t[0]] + Expand(t[1..])
  }

  // ---------- Patterns ----------

  datatype Token = Lit(c: char) | AnyChar | Param

  /** A pattern of ordinary characters, dots and parameter classes; None for any other. */
  function ParsePattern(p: string): Option<seq<Token>>
    decreases |p|
  {
    if p == [] then Some([])
    else
      var (first, n) :=
        if PARAM_CLASS <= p then (Some(Param), |PARAM_CLASS|)
        else if p[0] == '.' then (Some(AnyChar), 1)
        else if p[0] in METACHARACTERS then (None, 1)
        else (Some(Lit(p[0])), 1);
      var rest := ParsePattern(p[n..]);
      if first.Some? && rest.Some? then Some([first.value] + rest.value) else None
  }

  /** A run of characters that the parameter class accepts. */
  predicate ParamValue(v: string) {
    v != [] && '/' !in v && '?' !in v
  }

  /** The language of a pattern: a path that splits into one piece per token. */
  ghost predicate Match(tokens: seq<Token>, path: string)
    decreases |tokens|
  {
    if tokens == [] then path == []
    else
      match tokens[0]
      case Lit(c) => path != [] && path[0] == c && Match(tokens[1..], path[1..])
      case AnyChar => path != [] && path[0] != LINE_FEED && Match(tokens[1..], path[1..])
      case Param => exists k :: 0 < k <= |path| && ParamValue(path[..k]) && Match(tokens[1..], path[k..])
  }

  /** The engine agrees with the language on every pattern of the modelled kind. */
  ghost predicate Faithful(matchString: (string, string) -> bool) {
    forall p: string, path: string :: ParsePattern(p).Some? ==>
      (matchString("^" + p + "$", path) <==> Match(ParsePattern(p).value, path))
  }

  /** Such an engine exists. */
  lemma FaithfulIsPossible()
    ensures exists matchString :: Faithful(matchString)
  {
    var engine: (string, string) -> bool := (e, path) =>
      |e| >= 2 && ParsePattern(e[1..|e| - 1]).Some? && Match(ParsePattern(e[1..|e| - 1]).value, path);
    forall p: string, path: string | ParsePattern(p).Some?
      ensures engine("^" + p + "$", path) <==> Match(ParsePattern(p).value, path)
    {
      assert ("^" + p + "$")[1..|p| + 1] == p;
    }
    assert Faithful(engine);
  }

  function MatchesTemplate(matchString: (string, string) -> bool, template: string, path: string): bool {
    matchString("^" + Expand(template) + "$", path)
  }

  // ---------- What a template is meant to say ----------

  /** Parameters, and every other character standing for itself. */
  function Tokenise(t: string): seq<Token>
    decreases |t|
  {
    if t == [] then []
    else if ParamStarts(t) then [Param] + Tokenise(t[FirstClose(t) + 1..])
    else [Lit(t[0])] + Tokenise(t[1..])
  }

  /** No metacharacter outside parameters, but for dots. */
  ghost predicate Plain(t: string) {
    forall i :: 0 <= i < |Tokenise(t)| ==>
      Tokenise(t)[i].Lit? ==> Tokenise(t)[i].c == '.' || Tokenise(t)[i].c !in METACHARACTERS
  }

  ghost predicate HasDot(tokens: seq<Token>) {
    Lit('.') in tokens
  }

  /** What the engine makes of the literal dots. */
  function Dotted(tokens: seq<Token>): (r: seq<Token>)
    ensures |r| == |tokens|
    ensures forall i :: 0 <= i < |r| ==> r[i] == if tokens[i] == Lit('.') then AnyChar else tokens[i]
  {
    seq(|tokens|, i requires 0 <= i < |tokens| => if tokens[i] == Lit('.') then AnyChar else tokens[i])
  }

  // ---------- What is a parameter ----------

  /** Every character standing for itself. */
  function Literals(s: string): (r: seq<Token>)
    ensures |r| == |s| && forall i :: 0 <= i < |s| ==> r[i] == Lit(s[i])
  {
    seq(|s|, i requires 0 <= i < |s| => Lit(s[i]))
  }

  lemma {:induction false} ClosesAt(name: string, b: string)
    requires '}' !in name
    ensures FirstClose(name + "}" + b) == |name|
  {
    if name == [] {
      assert name + "}" + b == "}" + b;
    } else {
      ClosesAt(name[1..], b);
      assert (name + "}" + b)[1..] == name[1..] + "}" + b;
    }
  }

  lemma {:induction false} NeverCloses(t: string)
    requires '}' !in t
    ensures FirstClose(t) == |t|
  {
    if t == [] {
    } else {
      NeverCloses(t[1..]);
    }
  }

  /** A character that begins no parameter stays as it is. */
  lemma CharacterStays(c: char, t: string)
    requires !ParamStarts([c] + t)
    ensures Tokenise([c] + t) == [Lit(c)] + Tokenise(t) && Expand([c] + t) == [c] + Expand(t)
  {
    assert ([c] + t)[1..] == t;
  }

  lemma HeadFirst<T>(a: seq<T>, t: seq<T>)
    requires a != []
    ensures a + t == [a[0]] + (a[1..] + t)
  {
  }

  /** Text without an opening brace stays as it is, whatever follows. */
  lemma {:induction false} TextStays(a: string, t: string)
    requires '{' !in a
    ensures Tokenise(a + t) == Literals(a) + Tokenise(t) && Expand(a + t) == a + Expand(t)
  {
    if a == [] {
      assert a + t == t;
    } else {
      TextStays(a[1..], t);
      HeadFirst(a, t);
      CharacterStays(a[0], a[1..] + t);
      HeadFirst(a, Expand(t));
      assert Literals(a)[1..] == Literals(a[1..]);
      HeadFirst(Literals(a), Tokenise(t));
    }
  }

  lemma BracesAreReplaced(name: string, b: string)
    requires name != [] && '}' !in name
    ensures var t := "{" + name + "}" + b;
            Tokenise(t) == [Param] + Tokenise(b) && Expand(t) == "[^/?]+" + Expand(b)
  {
    var t := "{" + name + "}" + b;
    ClosesAt("{" + name, b);
    assert t == ("{" + name) + "}" + b && t[0] == '{';
    assert t[|name| + 2..] == b;
  }

  /**
   A parameter is an opening brace, a non-empty name without a closing one, and a closing brace,
   after text without an opening brace: it becomes the expression, and stands for one value.
   */
  lemma NamedBracesAreParameter(a: string, name: string, b: string)
    requires '{' !in a && name != [] && '}' !in name
    ensures var t := a + "{" + name + "}" + b;
            && Tokenise(t) == Literals(a) + [Param] + Tokenise(b)
            && Expand(t) == a + "[^/?]+" + Expand(b)
  {
    BracesAreReplaced(name, b);
    TextStays(a, "{" + name + "}" + b);
    assert a + "{" + name + "}" + b == a + ("{" + name + "}" + b);
    assert Literals(a) + [Param] + Tokenise(b) == Literals(a) + ([Param] + Tokenise(b));
    assert a + "[^/?]+" + Expand(b) == a + ("[^/?]+" + Expand(b));
  }

  /** Braces with nothing between them are text. */
  lemma EmptyBracesStay(b: string)
    ensures Tokenise(['{', '}'] + b) == [Lit('{'), Lit('}')] + Tokenise(b)
    ensures Expand(['{', '}'] + b) == ['{', '}'] + Expand(b)
  {
    var t := ['}'] + b;
    assert ['{', '}'] + b == ['{'] + t;
    assert FirstClose(['{'] + t) == 1 by {
      assert (['{'] + t)[1..] == t;
    }
    CharacterStays('{', t);
    CharacterStays('}', b);
  }

  /** An opening brace that is never closed is text, and so is all behind it. */
  lemma {:induction false} UnclosedBraceStays(t: string)
    requires '}' !in t
    ensures Tokenise(t) == Literals(t) && Expand(t) == t
  {
    if t == [] {
    } else {
      NeverCloses(t);
      UnclosedBraceStays(t[1..]);
      assert Literals(t) == [Lit(t[0])] + Literals(t[1..]);
    }
  }

  /** The engine is given the template, parameters replaced, between anchors. */
  lemma PatternIsAnchored(matchString: (string, string) -> bool, a: string, name: string, b: string, path: string)
    requires '{' !in a && '{' !in b && name != [] && '}' !in name
    ensures MatchesTemplate(matchString, a + "{" + name + "}" + b, path)
         == matchString("^" + a + "[^/?]+" + b + "$", path)
  {
    NamedBracesAreParameter(a, name, b);
    TextStays(b, "");
    assert b + "" == b && b + [] == b;
    assert "^" + (a + "[^/?]+" + b) + "$" == "^" + a + "[^/?]+" + b + "$";
  }

  /** Every character of RE2 that is not an ordinary one. */
  lemma Metacharacters(c: char)
    ensures c in METACHARACTERS <==> c in "\\.+*?()|[]{}^$"
  {
  }

  lemma TokeniseTail(t: string)
    requires t != [] && Plain(t)
    ensures Plain(if ParamStarts(t) then t[FirstClose(t) + 1..] else t[1..])
  {
    var rest := if ParamStarts(t) then t[FirstClose(t) + 1..] else t[1..];
    assert Tokenise(t)[1..] == Tokenise(rest);
    assert forall i :: 0 <= i < |Tokenise(rest)| ==> Tokenise(rest)[i] == Tokenise(t)[i + 1];
  }

  /** Expanding a template and reading the pattern gives its tokens, with dots matching anything. */
  lemma {:induction false} ExpandedPattern(t: string)
    requires Plain(t)
    ensures ParsePattern(Expand(t)) == Some(Dotted(Tokenise(t)))
    decreases |t|
  {
    if t == [] {
    } else {
      TokeniseTail(t);
      if ParamStarts(t) {
        var rest := t[FirstClose(t) + 1..];
        ExpandedPattern(rest);
        ParseParam(Expand(rest));
        DottedHead(Param, Tokenise(rest));
      } else {
        ExpandedPattern(t[1..]);
        assert Tokenise(t)[0] == Lit(t[0]);
        ParseCharacter(t[0], Expand(t[1..]));
        DottedHead(Lit(t[0]), Tokenise(t[1..]));
      }
    }
  }

  lemma DottedHead(first: Token, rest: seq<Token>)
    ensures Dotted([first] + rest) == [if first == Lit('.') then AnyChar else first] + Dotted(rest)
  {
  }

  lemma ParseParam(p: string)
    requires ParsePattern(p).Some?
    ensures ParsePattern(PARAM_CLASS + p) == Some([Param] + ParsePattern(p).value)
  {
    assert (PARAM_CLASS + p)[|PARAM_CLASS|..] == p;
  }

  lemma ParseCharacter(c: char, p: string)
    requires (c == '.' || c !in METACHARACTERS) && ParsePattern(p).Some?
    ensures ParsePattern([c] + p) == Some([if c == '.' then AnyChar else Lit(c)] + ParsePattern(p).value)
  {
    var q := [c] + p;
    assert PARAM_CLASS[0] == '[' && q[0] == c != '[';
    assert !(PARAM_CLASS <= q);
    assert q[1..] == p;
  }

  // ---------- Filling in parameters ----------

  function ParamCount(tokens: seq<Token>): nat {
    if tokens == [] then 0 else (if tokens[0] == Param then 1 else 0) + ParamCount(tokens[1..])
  }

  ghost predicate Values(tokens: seq<Token>, vs: seq<string>) {
    |vs| == ParamCount(tokens) && forall i :: 0 <= i < |vs| ==> ParamValue(vs[i])
  }

  ghost predicate NoAny(tokens: seq<Token>) {
    AnyChar !in tokens
  }

  /** The path that a template describes for given parameter values. */
  function Fill(tokens: seq<Token>, vs: seq<string>): string
    requires |vs| == ParamCount(tokens) && AnyChar !in tokens
  {
    if tokens == [] then []
    else
      match tokens[0]
      case Param => vs[0] + Fill(tokens[1..], vs[1..])
      case Lit(c) => [c] + Fill(tokens[1..], vs)
  }

  lemma {:induction false} FilledMatches(tokens: seq<Token>, vs: seq<string>)
    requires NoAny(tokens) && Values(tokens, vs)
    ensures Match(tokens, Fill(tokens, vs))
    decreases |tokens|
  {
    if tokens == [] {
    } else {
      var path := Fill(tokens, vs);
      if tokens[0] == Param {
        FilledMatches(tokens[1..], vs[1..]);
        assert path[..|vs[0]|] == vs[0] && path[|vs[0]|..] == Fill(tokens[1..], vs[1..]);
      } else {
        FilledMatches(tokens[1..], vs);
        assert path[1..] == Fill(tokens[1..], vs);
      }
    }
  }

  lemma {:induction false} MatchedIsFilled(tokens: seq<Token>, path: string) returns (vs: seq<string>)
    requires NoAny(tokens) && Match(tokens, path)
    ensures Values(tokens, vs) && Fill(tokens, vs) == path
    decreases |tokens|
  {
    if tokens == [] {
      vs := [];
    } else if tokens[0] == Param {
      var k :| 0 < k <= |path| && ParamValue(path[..k]) && Match(tokens[1..], path[k..]);
      var more := MatchedIsFilled(tokens[1..], path[k..]);
      vs := [path[..k]] + more;
      assert vs[1..] == more && path == path[..k] + path[k..];
    } else {
      vs := MatchedIsFilled(tokens[1..], path[1..]);
      assert path == [path[0]] + path[1..];
    }
  }

  /** A path matches exactly when some parameter values fill the template to it. */
  lemma MatchIffFilled(tokens: seq<Token>, path: string)
    requires NoAny(tokens)
    ensures Match(tokens, path) <==> exists vs :: Values(tokens, vs) && Fill(tokens, vs) == path
  {
    if Match(tokens, path) {
      var vs := MatchedIsFilled(tokens, path);
    }
    if vs :| Values(tokens, vs) && Fill(tokens, vs) == path {
      FilledMatches(tokens, vs);
    }
  }

  // ---------- Segment by segment ----------

  /** The pieces between separators; there is always at least one. */
  function Split<T(==)>(s: seq<T>, sep: T): (r: seq<seq<T>>)
    ensures r != []
  {
    if s == [] then [[]]
    else
      var r := Split(s[1..], sep);
      if s[0] == sep then [[]] + r else [[s[0]] + r[0]] + r[1..]
  }

  lemma {:induction false} SplitAfter<T>(a: seq<T>, b: seq<T>, sep: T)
    requires sep !in a
    ensures Split(a + b, sep) == [a + Split(b, sep)[0]] + Split(b, sep)[1..]
    decreases |a|
  {
    var r := Split(b, sep);
    if a == [] {
      assert a + b == b && a + r[0] == r[0];
    } else {
      SplitAfter(a[1..], b, sep);
      assert (a + b)[1..] == a[1..] + b;
      assert [a[0]] + (a[1..] + r[0]) == a + r[0];
    }
  }

  /** The first piece is the part before the first separator. */
  lemma {:induction false} FirstPiece<T>(s: seq<T>, sep: T)
    ensures Split(s, sep)[0] <= s && sep !in Split(s, sep)[0]
    ensures |Split(s, sep)| == 1 <==> sep !in s
    ensures |Split(s, sep)| == 1 ==> Split(s, sep)[0] == s
    decreases |s|
  {
    if s == [] {
    } else {
      FirstPiece(s[1..], sep);
      assert s == [s[0]] + s[1..];
    }
  }

  /** As many segments on both sides, and each matches. */
  ghost predicate SegmentsMatch(ts: seq<seq<Token>>, ps: seq<string>) {
    |ts| == |ps| && forall i :: 0 <= i < |ts| ==> Match(ts[i], ps[i])
  }

  lemma SegmentsMatchHead(ts: seq<seq<Token>>, ps: seq<string>)
    requires ts != [] && ps != []
    ensures SegmentsMatch(ts, ps) <==> Match(ts[0], ps[0]) && SegmentsMatch(ts[1..], ps[1..])
  {
    if Match(ts[0], ps[0]) && SegmentsMatch(ts[1..], ps[1..]) {
      forall i | 0 <= i < |ts|
        ensures Match(ts[i], ps[i])
      {
        assert i > 0 ==> ts[i] == ts[1..][i - 1] && ps[i] == ps[1..][i - 1];
      }
    }
    if SegmentsMatch(ts, ps) {
      assert forall i :: 0 <= i < |ts[1..]| ==> ts[1..][i] == ts[i + 1] && ps[1..][i] == ps[i + 1];
    }
  }

  /** One way of taking a parameter from the front, seen on the whole path and on its first segment. */
  lemma {:induction false} ParamSegment(rest: seq<Token>, path: string, k: nat)
    requires 0 < k <= |path| && ParamValue(path[..k])
    requires Match(rest, path[k..]) <==> SegmentsMatch(Split(rest, Lit('/')), Split(path[k..], '/'))
    requires Match(rest, path[k..])
    ensures SegmentsMatch(Split([Param] + rest, Lit('/')), Split(path, '/'))
  {
    var v := path[..k];
    var r, q := Split(rest, Lit('/')), Split(path[k..], '/');
    assert path == v + path[k..];
    SplitAfter(v, path[k..], '/');
    SplitAfter([Param], rest, Lit('/'));
    SegmentsMatchHead(r, q);
    var ts, ps := Split([Param] + rest, Lit('/')), Split(path, '/');
    assert ps[0][..k] == v && ps[0][k..] == q[0];
    assert ([Param] + r[0])[1..] == r[0];
    assert Match(ts[0], ps[0]);
    assert ts[1..] == r[1..] && ps[1..] == q[1..];
    SegmentsMatchHead(ts, ps);
  }

  /** A template beginning with a parameter takes a value off the front of what it matches. */
  lemma ParamTakesValue(rest: seq<Token>, path: string) returns (k: nat)
    requires Match([Param] + rest, path)
    ensures 0 < k <= |path| && ParamValue(path[..k]) && Match(rest, path[k..])
  {
    assert ([Param] + rest)[1..] == rest;
    k :| 0 < k <= |path| && ParamValue(path[..k]) && Match(rest, path[k..]);
  }

  /** Conversely: the first segment's parameter value is the path's. */
  lemma {:induction false} SegmentParam(rest: seq<Token>, path: string) returns (k: nat)
    requires SegmentsMatch(Split([Param] + rest, Lit('/')), Split(path, '/'))
    ensures 0 < k <= |path| && ParamValue(path[..k])
    ensures SegmentsMatch(Split(rest, Lit('/')), Split(path[k..], '/'))
  {
    var ts, ps := Split([Param] + rest, Lit('/')), Split(path, '/');
    var r := Split(rest, Lit('/'));
    assert ts[0] == [Param] + r[0] && ts[1..] == r[1..] by {
      SplitAfter([Param], rest, Lit('/'));
    }
    assert Match(ts[0], ps[0]) && SegmentsMatch(ts[1..], ps[1..]) by {
      SegmentsMatchHead(ts, ps);
    }
    assert ps[0] <= path by {
      FirstPiece(path, '/');
    }
    k := ParamTakesValue(r[0], ps[0]);
    var q := Split(path[k..], '/');
    assert path[..k] == ps[0][..k];
    assert ps[0] == path[..k] + q[0] && ps[1..] == q[1..] by {
      assert path == path[..k] + path[k..];
      SplitAfter(path[..k], path[k..], '/');
    }
    assert ps[0][k..] == q[0];
    SegmentsMatchHead(r, q);
  }

  /** A path matches exactly when it has as many `/`-separated segments as the template, each matching. */
  lemma {:induction false} MatchIffSegmentsMatch(tokens: seq<Token>, path: string)
    requires NoAny(tokens)
    ensures Match(tokens, path) <==> SegmentsMatch(Split(tokens, Lit('/')), Split(path, '/'))
    decreases |tokens|
  {
    var ps := Split(path, '/');
    FirstPiece(path, '/');
    if tokens == [] {
      assert SegmentsMatch([[]], ps) <==> |ps| == 1 && ps[0] == [];
    } else {
      var rest := tokens[1..];
      assert tokens == [tokens[0]] + rest;
      if tokens[0] == Param {
        if Match(tokens, path) {
          var k :| 0 < k <= |path| && ParamValue(path[..k]) && Match(rest, path[k..]);
          MatchIffSegmentsMatch(rest, path[k..]);
          ParamSegment(rest, path, k);
        }
        if SegmentsMatch(Split(tokens, Lit('/')), ps) {
          var k := SegmentParam(rest, path);
          MatchIffSegmentsMatch(rest, path[k..]);
        }
      } else {
        if path != [] {
          MatchIffSegmentsMatch(rest, path[1..]);
        }
        LiteralSegment(tokens[0].c, rest, path);
      }
    }
  }

  lemma {:induction false} LiteralSegment(c: char, rest: seq<Token>, path: string)
    ensures SegmentsMatch(Split([Lit(c)] + rest, Lit('/')), Split(path, '/'))
       <==> path != [] && path[0] == c && SegmentsMatch(Split(rest, Lit('/')), Split(path[1..], '/'))
  {
    var ts, ps := Split([Lit(c)] + rest, Lit('/')), Split(path, '/');
    var r := Split(rest, Lit('/'));
    assert ([Lit(c)] + rest)[1..] == rest;
    SegmentsMatchHead(ts, ps);
    if path != [] {
      var q := Split(path[1..], '/');
      SegmentsMatchHead(r, q);
      if c == '/' {
        assert ts == [[]] + r && ts[1..] == r;
        if path[0] == '/' {
          assert ps[1..] == q;
        }
      } else {
        assert ts[0] == [Lit(c)] + r[0] && ts[0][1..] == r[0] && ts[1..] == r[1..];
        if path[0] == c {
          assert ps[0] == [c] + q[0] && ps[0][1..] == q[0] && ps[1..] == q[1..];
        }
      }
    }
  }

  // ---------- Dots ----------

  lemma {:induction false} DottedAcceptsMore(tokens: seq<Token>, path: string)
    requires NoAny(tokens) && Match(tokens, path)
    ensures Match(Dotted(tokens), path)
    decreases |tokens|
  {
    if tokens == [] {
    } else {
      assert Dotted(tokens)[1..] == Dotted(tokens[1..]);
      if tokens[0] == Param {
        var k :| 0 < k <= |path| && ParamValue(path[..k]) && Match(tokens[1..], path[k..]);
        DottedAcceptsMore(tokens[1..], path[k..]);
      } else {
        DottedAcceptsMore(tokens[1..], path[1..]);
      }
    }
  }

  /** A path with an `x` for every parameter and every dot. */
  function WithoutDots(tokens: seq<Token>): string {
    if tokens == [] then []
    else [if tokens[0].Lit? && tokens[0].c != '.' then tokens[0].c else 'x'] + WithoutDots(tokens[1..])
  }

  lemma {:induction false} WithoutDotsIsAccepted(tokens: seq<Token>)
    requires NoAny(tokens)
    ensures Match(Dotted(tokens), WithoutDots(tokens)) && '.' !in WithoutDots(tokens)
    decreases |tokens|
  {
    if tokens == [] {
    } else {
      WithoutDotsIsAccepted(tokens[1..]);
      assert Dotted(tokens)[1..] == Dotted(tokens[1..]);
      var path := WithoutDots(tokens);
      assert path[1..] == WithoutDots(tokens[1..]) && path[..1] == [path[0]];
    }
  }

  lemma {:induction false} LiteralDotIsNeeded(tokens: seq<Token>, path: string)
    requires NoAny(tokens) && HasDot(tokens) && Match(tokens, path)
    ensures '.' in path
    decreases |tokens|
  {
    if tokens[0] == Param {
      var k :| 0 < k <= |path| && ParamValue(path[..k]) && Match(tokens[1..], path[k..]);
      assert HasDot(tokens[1..]);
      LiteralDotIsNeeded(tokens[1..], path[k..]);
    } else if tokens[0] != Lit('.') {
      assert HasDot(tokens[1..]);
      LiteralDotIsNeeded(tokens[1..], path[1..]);
    }
  }

  lemma {:induction false} TokensHaveNoAny(t: string)
    ensures NoAny(Tokenise(t))
    decreases |t|
  {
    if t == [] {
    } else {
      TokensHaveNoAny(if ParamStarts(t) then t[FirstClose(t) + 1..] else t[1..]);
    }
  }

  /**
   The template matcher accepts exactly the paths that its template describes if and only if the
   template has no dot outside its parameters: a dot goes into the expression unescaped.
   */
  lemma ExactIffNoDot(matchString: (string, string) -> bool, t: string)
    requires Faithful(matchString) && Plain(t)
    ensures (forall path :: MatchesTemplate(matchString, t, path) <==> Match(Tokenise(t), path))
       <==> !HasDot(Tokenise(t))
  {
    var tokens := Tokenise(t);
    TokensHaveNoAny(t);
    ExpandedPattern(t);
    assert forall path: string :: MatchesTemplate(matchString, t, path) <==> Match(Dotted(tokens), path);
    if HasDot(tokens) {
      var path := WithoutDots(tokens);
      WithoutDotsIsAccepted(tokens);
      if Match(tokens, path) {
        LiteralDotIsNeeded(tokens, path);
      }
      assert MatchesTemplate(matchString, t, path) && !Match(tokens, path);
    } else {
      assert Dotted(tokens) == tokens;
    }
  }

  /** Without dots: as many segments as the template, each filled from its own parameter values. */
  lemma {:induction false} MatchesSegmentBySegment(matchString: (string, string) -> bool, t: string, path: string)
    requires Faithful(matchString) && Plain(t) && !HasDot(Tokenise(t))
    ensures var ts, ps := Split(Tokenise(t), Lit('/')), Split(path, '/');
            MatchesTemplate(matchString, t, path) <==>
              && |ts| == |ps|
              && forall i :: 0 <= i < |ts| ==>
                   NoAny(ts[i]) && exists vs :: Values(ts[i], vs) && Fill(ts[i], vs) == ps[i]
  {
    var ts, ps := Split(Tokenise(t), Lit('/')), Split(path, '/');
    TokensHaveNoAny(t);
    ExactIffNoDot(matchString, t);
    assert MatchesTemplate(matchString, t, path) <==> Match(Tokenise(t), path);
    MatchIffSegmentsMatch(Tokenise(t), path);
    PiecesHaveNoAny(Tokenise(t));
    forall i | 0 <= i < |ts| && |ts| == |ps|
      ensures Match(ts[i], ps[i]) <==> exists vs :: Values(ts[i], vs) && Fill(ts[i], vs) == ps[i]
    {
      MatchIffFilled(ts[i], ps[i]);
    }
  }

  lemma {:induction false} PiecesHaveNoAny(tokens: seq<Token>)
    requires NoAny(tokens)
    ensures forall i :: 0 <= i < |Split(tokens, Lit('/'))| ==> NoAny(Split(tokens, Lit('/'))[i])
    decreases |tokens|
  {
    if tokens == [] {
    } else {
      PiecesHaveNoAny(tokens[1..]);
      var r := Split(tokens[1..], Lit('/'));
      assert NoAny(r[0]);
    }
  }

  function OneParam(a: string, b: string): seq<Token> {
    Literals(a) + [Param] + Literals(b)
  }

  /** One value fills such tokens, and any path with it in its place is so filled. */
  lemma {:induction false} OneValueOrNone(a: string, b: string, path: string)
    requires NoAny(OneParam(a, b))
    ensures (exists vs :: Values(OneParam(a, b), vs) && Fill(OneParam(a, b), vs) == path)
       <==> exists v :: v != [] && '/' !in v && '?' !in v && path == a + v + b
  {
    if vs :| Values(OneParam(a, b), vs) && Fill(OneParam(a, b), vs) == path {
      OneValueFills(a, b, vs);
    }
    if v :| v != [] && '/' !in v && '?' !in v && path == a + v + b {
      OneParamCount(a, b);
      OneValueFills(a, b, [v]);
      assert Values(OneParam(a, b), [v]);
    }
  }

  /** What the engine is asked to match. */
  lemma {:induction false} OneParamPattern(a: string, name: string, b: string)
    requires name != [] && '}' !in name
    requires forall c :: c in a || c in b ==> c !in METACHARACTERS
    ensures NoAny(OneParam(a, b))
    ensures ParsePattern(Expand(a + "{" + name + "}" + b)) == Some(OneParam(a, b))
  {
    var t := a + "{" + name + "}" + b;
    assert Tokenise(t) == OneParam(a, b) by {
      NamedBracesAreParameter(a, name, b);
      TextStays(b, "");
      assert b + "" == b;
    }
    assert Dotted(OneParam(a, b)) == OneParam(a, b);
    ExpandedPattern(t);
  }

  /**
   A template with one parameter between ordinary text accepts exactly the text with a non-empty value
   free of slashes and question marks in its place.
   */
  lemma {:induction false} OneParameter(matchString: (string, string) -> bool,
                                        a: string, name: string, b: string, path: string)
    requires Faithful(matchString) && name != [] && '}' !in name
    requires forall c :: c in a || c in b ==> c !in METACHARACTERS
    ensures MatchesTemplate(matchString, a + "{" + name + "}" + b, path)
       <==> exists v :: v != [] && '/' !in v && '?' !in v && path == a + v + b
  {
    OneParamPattern(a, name, b);
    MatchIffFilled(OneParam(a, b), path);
    OneValueOrNone(a, b, path);
  }

  lemma {:induction false} OneParamCount(a: string, b: string)
    ensures ParamCount(Literals(b)) == 0
    ensures ParamCount(OneParam(a, b)) == 1
    decreases |a| + |b|
  {
    if b != [] {
      assert Literals(b)[1..] == Literals(b[1..]);
      OneParamCount(a, b[1..]);
    }
    var tokens := OneParam(a, b);
    if a == [] {
      assert tokens[1..] == Literals(b);
    } else {
      assert tokens[1..] == OneParam(a[1..], b);
      OneParamCount(a[1..], b);
    }
  }

  lemma {:induction false} TextFillsItself(b: string)
    ensures ParamCount(Literals(b)) == 0 && Fill(Literals(b), []) == b
  {
    if b == [] {
    } else {
      assert Literals(b)[1..] == Literals(b[1..]);
      TextFillsItself(b[1..]);
      assert b == [b[0]] + b[1..];
    }
  }

  lemma {:induction false} OneValueFills(a: string, b: string, vs: seq<string>)
    requires Values(OneParam(a, b), vs) && NoAny(OneParam(a, b))
    ensures |vs| == 1 && ParamValue(vs[0]) && Fill(OneParam(a, b), vs) == a + vs[0] + b
    decreases |a|
  {
    OneParamCount(a, b);
    var tokens := OneParam(a, b);
    if a == [] {
      TextFillsItself(b);
      assert tokens[1..] == Literals(b) && vs[1..] == [];
      assert a + vs[0] + b == vs[0] + b;
    } else {
      assert tokens[1..] == OneParam(a[1..], b);
      OneValueFills(a[1..], b, vs);
      HeadFirst(a, vs[0] + b);
      assert a + vs[0] + b == a + (vs[0] + b) && a[1..] + vs[0] + b == a[1..] + (vs[0] + b);
    }
  }

  /** A dot on its own accepts every single character but the line feed. */
  lemma DotAcceptsOne(matchString: (string, string) -> bool, path: string)
    requires Faithful(matchString)
    ensures MatchesTemplate(matchString, ['.'], path) <==> |path| == 1 && path[0] != LINE_FEED
  {
    CharacterStays('.', []);
    assert ['.'] + [] == ['.'];
    assert Tokenise(['.']) == [Lit('.')];
    ExpandedPattern(['.']);
    assert Dotted([Lit('.')]) == [AnyChar];
    assert [AnyChar][1..] == [];
    assert path != [] ==> (path[1..] == [] <==> |path| == 1);
  }
}
