/** The pure half of route.go: a route template such as `/user/<int:id>/` read as a list of
    tokens, the anchored matcher that `parsePattern` builds from it, and the language that
    matcher accepts.

    `parsePattern` rewrites every match of `<[^>]+>` into a named capturing group and copies
    the rest of the template into a regular expression `^...$`; when the template ends in `/`
    that slash becomes optional, otherwise an optional `/` is appended. Here the template is
    split into literal runs and placeholders (`Tokenize`), the regular expression is
    `^Body/?$` where `Body` is the template without one trailing `/`, and the engine is
    replaced by a direct matcher (`MatchTokens`, `Match`) proved equal to the language
    "a literal is copied, a placeholder is filled by a non-empty run of its class"
    (`Fill`, `ValidCaptures`, `Accepts`). */
module Patterns {
  import opened Common

  /** The converter table `DefaultReplacer`: `int` is `\d+`, `string` is `[\w\-]+`,
      `any` (also the converter of an untyped `<name>`) is `[^/]+`. */
  datatype Kind = Int | Str | Any

  /** A literal run of the template, or a placeholder `<name>` (typed == false) or
      `<converter:name>` (typed == true). */
  datatype Token = Lit(text: string) | Param(typed: bool, converter: string, name: string)

  /** The compiled form kept in `Route.regexp`: the tokens of the template body. */
  datatype Matcher = Matcher(body: seq<Token>)

  const DefaultConverter := "any"

  predicate IsDigit(c: char) { '0' <= c <= '9' }

  predicate IsWord(c: char) { IsDigit(c) || 'a' <= c <= 'z' || 'A' <= c <= 'Z' || c == '_' }

  /** One character of the class a converter stands for (`\d`, `[\w\-]`, `[^/]`). */
  predicate InClass(k: Kind, c: char) {
    match k
    case Int => IsDigit(c)
    case Str => IsWord(c) || c == '-'
    case Any => c != '/'
  }

  /** The class of a placeholder, or None for a converter outside the table. */
  function KindOf(t: Token): (k: Option<Kind>)
    requires t.Param?
    ensures !t.typed ==> k == Some(Any)
    ensures t.typed ==> (k.Some? <==> t.converter == "int" || t.converter == "string" || t.converter == "any")
  {
    var conv := if t.typed then t.converter else DefaultConverter;
    if conv == "int" then Some(Int)
    else if conv == "string" then Some(Str)
    else if conv == "any" then Some(Any)
    else None
  }

  /** Index of the first `c` in `s`, or `|s|` when there is none. */
  function IndexOf(s: string, c: char): (n: nat)
    ensures n <= |s|
    ensures forall i :: 0 <= i < n ==> s[i] != c
    ensures n < |s| ==> s[n] == c
  {
    if s == [] then 0 else if s[0] == c then 0 else 1 + IndexOf(s[1..], c)
  }

  /** Length of the match of `<[^>]+>` that starts at the beginning of `s`, or 0 when
      no match starts there. */
  function PlaceholderLength(s: string): (n: nat)
    ensures n == 0 || (3 <= n <= |s| && s[0] == '<' && s[n - 1] == '>' && '>' !in s[1..n - 1])
  {
    if s == [] || s[0] != '<' then 0
    else
      var j := 1 + IndexOf(s[1..], '>');
      assert s[1..][..j - 1] == s[1..j];
      if 2 <= j < |s| then j + 1 else 0
  }

  /** The text between `<` and `>` of a placeholder. */
  function Inner(t: Token): string
    requires t.Param?
  {
    if t.typed then t.converter + ":" + t.name else t.name
  }

  /** `strings.SplitN(in, ":", 2)` on a placeholder: the text before the first `:` is the
      converter, the rest the name; without a `:` the whole text is the name. */
  function MakeParam(inner: string): (t: Token)
    ensures t.Param? && Inner(t) == inner
    ensures t.typed <==> ':' in inner
  {
    var c := IndexOf(inner, ':');
    if c < |inner| then
      assert inner == inner[..c] + ":" + inner[c + 1..];
      Param(true, inner[..c], inner[c + 1..])
    else Param(false, "", inner)
  }

  function Piece(t: Token): string {
    match t
    case Lit(s) => s
    case Param(_, _, _) => "<" + Inner(t) + ">"
  }

  /** The template text a token list stands for. */
  function Render(ts: seq<Token>): string
    decreases |ts|
  {
    if ts == [] then [] else Piece(ts[0]) + Render(ts[1..])
  }

  /** Prepends one literal character, merging it into a following literal run. */
  function PushChar(c: char, ts: seq<Token>): (r: seq<Token>)
    ensures Render(r) == [c] + Render(ts)
  {
    if |ts| > 0 && ts[0].Lit? then
      assert Render(ts) == ts[0].text + Render(ts[1..]);
      [Lit([c] + ts[0].text)] + ts[1..]
    else [Lit([c])] + ts
  }

  /** The scan of `ReplaceAllStringFunc` with `<[^>]+>`: leftmost matches, left to right,
      non-overlapping; everything between them is literal. (When the template lacks `<` or
      `>` there is no match and the template is one literal, as the other branch of
      `parsePattern` has it.) */
  function Tokenize(s: string): (ts: seq<Token>)
    ensures Render(ts) == s
    decreases |s|
  {
    if s == [] then []
    else
      var n := PlaceholderLength(s);
      if n > 0 then
        assert s == "<" + s[1..n - 1] + ">" + s[n..];
        [MakeParam(s[1..n - 1])] + Tokenize(s[n..])
      else
        assert s == [s[0]] + s[1..];
        PushChar(s[0], Tokenize(s[1..]))
  }

  /** The token lists `Tokenize` reads back from their own rendering: maximal non-empty
      literal runs without `<`, placeholders whose text holds no `>` and splits at its
      first `:` into the same converter and name. */
  predicate Canonical(ts: seq<Token>)
    decreases |ts|
  {
    ts == [] ||
    ((match ts[0]
      case Lit(t) => t != [] && '<' !in t && (|ts| > 1 ==> ts[1].Param?)
      case Param(typed, conv, name) =>
        Inner(ts[0]) != [] && '>' !in Inner(ts[0]) && (if typed then ':' !in conv else ':' !in name && conv == []))
     && Canonical(ts[1..]))
  }

  lemma {:induction false} TokenizeLiteral(t: string, rest: string, ts: seq<Token>)
    requires t != [] && '<' !in t
    requires Tokenize(rest) == ts && (ts == [] || ts[0].Param?)
    ensures Tokenize(t + rest) == [Lit(t)] + ts
    decreases |t|
  {
    var s := t + rest;
    assert s[0] == t[0] != '<';
    assert s[1..] == t[1..] + rest;
    if |t| == 1 {
      assert s[1..] == rest;
    } else {
      TokenizeLiteral(t[1..], rest, ts);
      assert [t[0]] + t[1..] == t;
    }
  }

  /** The placeholder scan finds `<inner>` when `inner` is non-empty and holds no `>`. */
  lemma PlaceholderLengthOf(inner: string, rest: string)
    requires inner != [] && '>' !in inner
    ensures PlaceholderLength("<" + inner + ">" + rest) == |inner| + 2
  {
    var s := "<" + inner + ">" + rest;
    assert s[1..] == inner + ">" + rest;
    assert forall i :: 0 <= i < |inner| ==> s[1..][i] == inner[i];
    assert s[1..][|inner|] == '>';
  }

  /** Splitting the text of a canonical placeholder at its first `:` gives it back. */
  lemma MakeParamInner(t: Token)
    requires t.Param? && (if t.typed then ':' !in t.converter else ':' !in t.name && t.converter == [])
    ensures MakeParam(Inner(t)) == t
  {
    var inner := Inner(t);
    var c := IndexOf(inner, ':');
    if t.typed {
      assert inner == t.converter + ":" + t.name;
      assert forall i :: 0 <= i < |t.converter| ==> inner[i] == t.converter[i];
      assert inner[|t.converter|] == ':';
      assert c == |t.converter|;
      assert inner[..|t.converter|] == t.converter && inner[|t.converter| + 1..] == t.name;
    }
  }

  lemma TokenizeParam(t: Token, rest: string)
    requires t.Param? && Inner(t) != [] && '>' !in Inner(t)
    requires if t.typed then ':' !in t.converter else ':' !in t.name && t.converter == []
    ensures Tokenize(Piece(t) + rest) == [t] + Tokenize(rest)
  {
    var inner := Inner(t);
    var s := Piece(t) + rest;
    assert s == "<" + inner + ">" + rest;
    PlaceholderLengthOf(inner, rest);
    var n := |inner| + 2;
    assert s[1..n - 1] == inner;
    assert s[n..] == rest;
    MakeParamInner(t);
    assert Tokenize(s) == [MakeParam(s[1..n - 1])] + Tokenize(s[n..]);
  }

  /** One step of the round trip for a list that starts with a literal. */
  lemma TokenizeRenderLit(ts: seq<Token>)
    requires ts != [] && ts[0].Lit? && Canonical(ts)
    requires Tokenize(Render(ts[1..])) == ts[1..]
    ensures Tokenize(Render(ts)) == ts
  {
    var t, tail := ts[0], ts[1..];
    assert t.text != [] && '<' !in t.text && (tail == [] || tail[0].Param?);
    assert Render(ts) == t.text + Render(tail);
    TokenizeLiteral(t.text, Render(tail), tail);
    assert [t] + tail == ts;
  }

  /** One step of the round trip for a list that starts with a placeholder. */
  lemma TokenizeRenderParam(ts: seq<Token>)
    requires ts != [] && ts[0].Param? && Canonical(ts)
    requires Tokenize(Render(ts[1..])) == ts[1..]
    ensures Tokenize(Render(ts)) == ts
  {
    var t, tail := ts[0], ts[1..];
    assert Inner(t) != [] && '>' !in Inner(t);
    assert Render(ts) == Piece(t) + Render(tail);
    TokenizeParam(t, Render(tail));
    assert [t] + tail == ts;
  }

  /** Reading a canonical token list back from its text gives the same list. */
  lemma {:induction false} TokenizeRender(ts: seq<Token>)
    requires Canonical(ts)
    ensures Tokenize(Render(ts)) == ts
    decreases |ts|
  {
    if ts != [] {
      assert Canonical(ts[1..]);
      TokenizeRender(ts[1..]);
      if ts[0].Lit? {
        TokenizeRenderLit(ts);
      } else {
        TokenizeRenderParam(ts);
      }
    }
  }

  /** Characters that act as operators once a literal is copied into the expression. */
  predicate IsMeta(c: char) {
    c == '\\' || c == '.' || c == '+' || c == '*' || c == '?' || c == '(' || c == ')' ||
    c == '|' || c == '[' || c == ']' || c == '{' || c == '}' || c == '^' || c == '$'
  }

  predicate PlainLiteral(t: string) {
    forall i :: 0 <= i < |t| ==> !IsMeta(t[i])
  }

  /** A capture-group name the regular expression package accepts. */
  predicate ValidName(n: string) {
    |n| > 0 && forall i :: 0 <= i < |n| ==> IsWord(n[i])
  }

  /** The fragment of templates this model covers: literals without operators, placeholders
      with a converter from the table and a valid name, and every placeholder followed by a
      literal that starts with `/` or by the end of the body. */
  predicate WellFormed(ts: seq<Token>)
    decreases |ts|
  {
    ts == [] ||
    ((match ts[0]
      case Lit(t) => PlainLiteral(t)
      case Param(_, _, name) =>
        KindOf(ts[0]).Some? && ValidName(name) &&
        (|ts| > 1 ==> ts[1].Lit? && ts[1].text != [] && ts[1].text[0] == '/'))
     && WellFormed(ts[1..]))
  }

  /** Capture-group names in order (`SubexpNames` without the whole match). */
  function Names(ts: seq<Token>): seq<string>
    decreases |ts|
  {
    if ts == [] then []
    else if ts[0].Param? then [ts[0].name] + Names(ts[1..])
    else Names(ts[1..])
  }

  /** The names of a concatenation are the names of its parts, in order. */
  lemma {:induction false} NamesAppend(a: seq<Token>, b: seq<Token>)
    ensures Names(a + b) == Names(a) + Names(b)
    decreases |a|
  {
    if a == [] {
      assert a + b == b;
    } else {
      assert (a + b)[1..] == a[1..] + b;
      NamesAppend(a[1..], b);
    }
  }

  /** One name per placeholder: a single token contributes its name exactly when it is a
      placeholder, so with `NamesAppend` the names are those of the placeholders in template
      order; every placeholder's name is listed, and none at all exactly when the list has
      no placeholder. */
  lemma {:induction false} NamesOfPlaceholders(ts: seq<Token>)
    ensures |ts| == 1 ==> Names(ts) == (if ts[0].Param? then [ts[0].name] else [])
    ensures |Names(ts)| <= |ts|
    ensures forall i :: 0 <= i < |ts| && ts[i].Param? ==> ts[i].name in Names(ts)
    ensures Names(ts) == [] <==> forall i :: 0 <= i < |ts| ==> ts[i].Lit?
    decreases |ts|
  {
    if ts != [] {
      NamesOfPlaceholders(ts[1..]);
      assert forall i :: 1 <= i < |ts| ==> ts[i] == ts[1..][i - 1];
    }
  }

  /** The class of each placeholder, in order. */
  function Kinds(ts: seq<Token>): (r: seq<Option<Kind>>)
    ensures |r| == |Names(ts)|
    decreases |ts|
  {
    if ts == [] then []
    else if ts[0].Param? then [KindOf(ts[0])] + Kinds(ts[1..])
    else Kinds(ts[1..])
  }

  /** The literal text of a token list, placeholders dropped. */
  function LitText(ts: seq<Token>): string
    decreases |ts|
  {
    if ts == [] then [] else (if ts[0].Lit? then ts[0].text else []) + LitText(ts[1..])
  }

  /** `c` is a value the group of class `k` can capture: non-empty, every character in class. */
  predicate Captures(k: Option<Kind>, c: string) {
    k.Some? && |c| > 0 && forall i :: 0 <= i < |c| ==> InClass(k.value, c[i])
  }

  /** One capture per placeholder, each in its placeholder's class. */
  predicate ValidCaptures(ts: seq<Token>, caps: seq<string>)
    ensures ValidCaptures(ts, caps) ==> |caps| == |Names(ts)|
    decreases |ts|
  {
    if ts == [] then caps == []
    else if ts[0].Lit? then ValidCaptures(ts[1..], caps)
    else |caps| > 0 && Captures(KindOf(ts[0]), caps[0]) && ValidCaptures(ts[1..], caps[1..])
  }

  /** The text spelled by a token list when each placeholder is filled by its capture. */
  function Fill(ts: seq<Token>, caps: seq<string>): string
    requires |caps| == |Names(ts)|
    decreases |ts|
  {
    if ts == [] then []
    else match ts[0]
      case Lit(t) => t + Fill(ts[1..], caps)
      case Param(_, _, _) => caps[0] + Fill(ts[1..], caps[1..])
  }

  /** The language of `^Body/?$` with its captures: the path is the body filled with valid
      captures, with or without one `/` appended. */
  predicate Accepts(body: seq<Token>, path: string, caps: seq<string>) {
    ValidCaptures(body, caps) && (path == Fill(body, caps) || path == Fill(body, caps) + "/")
  }

  /** The matcher for a body: literals must be prefixes, and a placeholder takes the run of
      characters up to the next `/`, which must be non-empty and in its class. */
  function MatchTokens(ts: seq<Token>, s: string): (r: Option<seq<string>>)
    ensures r.Some? ==> ValidCaptures(ts, r.value) && s == Fill(ts, r.value)
    decreases |ts|
  {
    if ts == [] then (if s == [] then Some([]) else None)
    else match ts[0]
      case Lit(t) =>
        if t <= s then
          assert s == t + s[|t|..];
          MatchTokens(ts[1..], s[|t|..])
        else None
      case Param(_, _, _) =>
        var n := IndexOf(s, '/');
        if n > 0 && Captures(KindOf(ts[0]), s[..n]) then
          match MatchTokens(ts[1..], s[n..])
          case Some(rest) =>
            assert ([s[..n]] + rest)[1..] == rest;
            assert s == s[..n] + s[n..];
            Some([s[..n]] + rest)
          case None => None
        else None
  }

  /** `FindAllStringSubmatch` of `^Body/?$`: the captures of the path, trying first the
      reading in which the optional final `/` is taken. For a well-formed body at most one
      reading succeeds (`NotBothFillings`), so the order does not change the result. */
  function Match(body: seq<Token>, path: string): (r: Option<seq<string>>)
    ensures r.Some? ==> Accepts(body, path, r.value)
  {
    assert EndsWithSlash(path) ==> path == path[..|path| - 1] + "/";
    if EndsWithSlash(path) && MatchTokens(body, path[..|path| - 1]).Some? then
      MatchTokens(body, path[..|path| - 1])
    else MatchTokens(body, path)
  }

  /** The template without one trailing `/`. */
  function Body(pattern: string): (b: string)
    ensures EndsWithSlash(pattern) ==> b + "/" == pattern
    ensures !EndsWithSlash(pattern) ==> b == pattern
  {
    if EndsWithSlash(pattern) then pattern[..|pattern| - 1] else pattern
  }

  /** What `parsePattern` stores in `regexp`. */
  function Compile(pattern: string): (m: Matcher)
    ensures Render(m.body) == Body(pattern)
  {
    Matcher(Tokenize(Body(pattern)))
  }

  /** Templates inside the modelled fragment. */
  predicate Supported(pattern: string) {
    WellFormed(Compile(pattern).body)
  }

  /** A capture never holds `/`. */
  lemma CaptureHasNoSlash(k: Option<Kind>, c: string)
    requires Captures(k, c)
    ensures '/' !in c
  {
    forall i | 0 <= i < |c|
      ensures c[i] != '/'
    {
      assert InClass(k.value, c[i]);
    }
  }

  /** A filled body starts with its first literal. */
  lemma FillStartsWithLiteral(ts: seq<Token>, caps: seq<string>)
    requires |ts| > 0 && ts[0].Lit? && |caps| == |Names(ts)|
    ensures ts[0].text <= Fill(ts, caps)
  {
  }

  /** Every valid filling of a well-formed body is matched, with the same captures. */
  lemma {:induction false} MatchTokensComplete(ts: seq<Token>, caps: seq<string>)
    requires WellFormed(ts) && ValidCaptures(ts, caps)
    ensures MatchTokens(ts, Fill(ts, caps)) == Some(caps)
    decreases |ts|
  {
    if ts != [] {
      match ts[0]
      case Lit(t) =>
        MatchTokensComplete(ts[1..], caps);
        var s := Fill(ts, caps);
        assert s == t + Fill(ts[1..], caps);
        assert s[|t|..] == Fill(ts[1..], caps);
      case Param(_, _, _) =>
        MatchTokensComplete(ts[1..], caps[1..]);
        var c := caps[0];
        var tail := Fill(ts[1..], caps[1..]);
        var s := Fill(ts, caps);
        assert s == c + tail;
        CaptureHasNoSlash(KindOf(ts[0]), c);
        if |ts| > 1 {
          FillStartsWithLiteral(ts[1..], caps[1..]);
          assert tail[0] == '/';
        } else {
          assert tail == [];
        }
        var n := IndexOf(s, '/');
        assert forall i :: 0 <= i < |c| ==> s[i] == c[i];
        assert |s| > |c| ==> s[|c|] == tail[0] == '/';
        assert n == |c|;
        assert s[..n] == c && s[n..] == tail;
        assert caps == [c] + caps[1..];
    }
  }

  /** Every filling of a body holds exactly as many `/` as its literals. */
  lemma {:induction false} FillSlashes(ts: seq<Token>, caps: seq<string>)
    requires ValidCaptures(ts, caps)
    ensures multiset(Fill(ts, caps))['/'] == multiset(LitText(ts))['/']
    decreases |ts|
  {
    if ts != [] {
      match ts[0]
      case Lit(t) =>
        FillSlashes(ts[1..], caps);
        assert Fill(ts, caps) == t + Fill(ts[1..], caps);
        assert LitText(ts) == t + LitText(ts[1..]);
      case Param(_, _, _) =>
        FillSlashes(ts[1..], caps[1..]);
        CaptureHasNoSlash(KindOf(ts[0]), caps[0]);
        assert multiset(caps[0])['/'] == 0;
        assert Fill(ts, caps) == caps[0] + Fill(ts[1..], caps[1..]);
        assert LitText(ts) == LitText(ts[1..]);
    }
  }

  /** A path and the same path with one more `/` are never both fillings of one body. */
  lemma NotBothFillings(body: seq<Token>, w: string, c1: seq<string>, c2: seq<string>)
    requires ValidCaptures(body, c1) && ValidCaptures(body, c2)
    requires Fill(body, c1) == w + "/"
    ensures Fill(body, c2) != w
  {
    FillSlashes(body, c1);
    FillSlashes(body, c2);
    assert multiset(w + "/")['/'] == multiset(w)['/'] + 1;
  }

  /** Every reading of the path in a well-formed body's language is what `Match` returns. */
  lemma MatchComplete(body: seq<Token>, path: string, caps: seq<string>)
    requires WellFormed(body) && Accepts(body, path, caps)
    ensures Match(body, path) == Some(caps)
  {
    var w := Fill(body, caps);
    MatchTokensComplete(body, caps);
    if path == w + "/" {
      assert path[..|path| - 1] == w;
    } else if EndsWithSlash(path) {
      var shorter := path[..|path| - 1];
      assert path == shorter + "/";
      var r := MatchTokens(body, shorter);
      if r.Some? {
        NotBothFillings(body, shorter, caps, r.value);
      }
    }
  }

  /** The matcher of a well-formed body is exactly its language: `Match` returns `caps`
      if and only if the path is the body filled with `caps`, with or without one `/`. */
  lemma MatchCorrect(body: seq<Token>, path: string, caps: seq<string>)
    requires WellFormed(body)
    ensures Match(body, path) == Some(caps) <==> Accepts(body, path, caps)
  {
    if Accepts(body, path, caps) {
      MatchComplete(body, path, caps);
    }
  }

  /** Every capture is non-empty and made of characters of its placeholder's class:
      digits for `int`, word characters or `-` for `string`, anything but `/` for `any`. */
  lemma {:induction false} CapturesInClass(ts: seq<Token>, caps: seq<string>, i: nat)
    requires ValidCaptures(ts, caps) && i < |caps|
    ensures Kinds(ts)[i].Some? && |caps[i]| > 0
    ensures forall j :: 0 <= j < |caps[i]| ==> InClass(Kinds(ts)[i].value, caps[i][j])
    decreases |ts|
  {
    if ts[0].Lit? {
      CapturesInClass(ts[1..], caps, i);
    } else if i > 0 {
      CapturesInClass(ts[1..], caps[1..], i - 1);
    }
  }

  /** A body without placeholders spells its own text. */
  lemma {:induction false} FillLiteral(ts: seq<Token>)
    requires Names(ts) == []
    ensures ValidCaptures(ts, []) && Fill(ts, []) == Render(ts)
    decreases |ts|
  {
    if ts != [] {
      FillLiteral(ts[1..]);
    }
  }

  lemma EndsWithSlashConcat(a: string, b: string)
    ensures EndsWithSlash(a + b) == if b == [] then EndsWithSlash(a) else EndsWithSlash(b)
  {
    if b == [] {
      assert a + b == a;
    } else {
      assert (a + b)[|a + b| - 1] == b[|b| - 1];
    }
  }

  /** A filled body ends in `/` exactly when the template body does. */
  lemma {:induction false} FillEnds(ts: seq<Token>, caps: seq<string>)
    requires ValidCaptures(ts, caps)
    ensures (Fill(ts, caps) == []) == (Render(ts) == [])
    ensures EndsWithSlash(Fill(ts, caps)) == EndsWithSlash(Render(ts))
    decreases |ts|
  {
    if ts != [] {
      var f, r, head, rest;
      if ts[0].Lit? {
        rest := caps;
        head := ts[0].text;
      } else {
        rest := caps[1..];
        head := caps[0];
        CaptureHasNoSlash(KindOf(ts[0]), caps[0]);
        assert head[|head| - 1] in head;
      }
      FillEnds(ts[1..], rest);
      f := Fill(ts[1..], rest);
      r := Render(ts[1..]);
      assert Fill(ts, caps) == head + f;
      assert Render(ts) == Piece(ts[0]) + r;
      EndsWithSlashConcat(head, f);
      EndsWithSlashConcat(Piece(ts[0]), r);
    }
  }

  /** A template without placeholders matches exactly its body and its body followed by
      one `/`: the trailing slash is always optional. */
  lemma LiteralPattern(pattern: string, path: string)
    requires Supported(pattern) && Names(Compile(pattern).body) == []
    ensures Match(Compile(pattern).body, path).Some? <==>
            path == Body(pattern) || path == Body(pattern) + "/"
    ensures Match(Compile(pattern).body, path).Some? ==> Match(Compile(pattern).body, path) == Some([])
  {
    var body := Compile(pattern).body;
    FillLiteral(body);
    MatchCorrect(body, path, []);
    if Match(body, path).Some? {
      MatchCorrect(body, path, Match(body, path).value);
    }
  }
}
