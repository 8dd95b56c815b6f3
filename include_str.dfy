/** Expansion of `include_str!("file")` invocations inside a token stream
    (`process_include_str` in src/lib.rs): each invocation becomes one string
    literal holding the contents of the named file, resolved against the
    directory of the source file being bundled. */
module IncludeStr {
  import opened Results
  import opened Paths

  datatype Delimiter = Parenthesis | Brace | Bracket | Invisible

  /** A literal as written in the source, or a string literal made from a value
      (`Literal::string`). */
  datatype Lit = Written(text: string) | Str(value: string)

  /** A token tree: atomic tokens, and delimited groups holding a nested stream. */
  datatype Token =
    | Ident(name: string)
    | Punct(ch: char)
    | Literal(lit: Lit)
    | Group(delim: Delimiter, stream: seq<Token>)

  /** The three ways the rewrite panics: an empty argument group, a non-group
      after `include_str!`, and a file that cannot be read. */
  datatype IncludeError =
    | EmptyInvocation
    | NotAGroup(found: Option<Token>)
    | FileNotFound(path: string)

  type Expansion = Result<seq<Token>, IncludeError>

  const MacroName: string := "include_str"

  predicate IsMacroIdent(t: Token) {
    t.Ident? && t.name == MacroName
  }

  function Open(d: Delimiter): string {
    match d
    case Parenthesis => "("
    case Brace => "{"
    case Bracket => "["
    case Invisible => ""
  }

  function Close(d: Delimiter): string {
    match d
    case Parenthesis => ")"
    case Brace => "}"
    case Bracket => "]"
    case Invisible => ""
  }

  /** How `Literal::string` writes one character of its value: a quote, a
      backslash, a newline, a carriage return and a tab are escaped. */
  function EscapeChar(c: char): string {
    if c == '"' then "\\\""
    else if c == '\\' then "\\\\"
    else if c == '\n' then "\\n"
    else if c == '\r' then "\\r"
    else if c == '\t' then "\\t"
    else [c]
  }

  /** The text between the quotes of the string literal holding `s`. */
  function Escape(s: string): (r: string)
    ensures |s| <= |r| <= 2 * |s|
  {
    if s == [] then "" else EscapeChar(s[0]) + Escape(s[1..])
  }

  function UnescapeChar(c: char): char {
    if c == 'n' then '\n'
    else if c == 'r' then '\r'
    else if c == 't' then '\t'
    else c
  }

  /** Reading the text of a string literal back: a backslash and the
      character after it stand for one character. */
  function Unescape(s: string): string {
    if s == [] then ""
    else if s[0] == '\\' && |s| > 1 then [UnescapeChar(s[1])] + Unescape(s[2..])
    else [s[0]] + Unescape(s[1..])
  }

  lemma UnescapeStep(c: char, rest: string)
    ensures Unescape(EscapeChar(c) + rest) == [c] + Unescape(rest)
  {
    var e := EscapeChar(c) + rest;
    if |EscapeChar(c)| == 1 {
      assert e[0] == c && e[1..] == rest;
    } else {
      assert e[0] == '\\' && e[2..] == rest;
    }
  }

  /** The literal holds the value: reading its text back gives the value. */
  lemma {:induction false} EscapeRoundTrip(s: string)
    ensures Unescape(Escape(s)) == s
  {
    if s != [] {
      EscapeRoundTrip(s[1..]);
      UnescapeStep(s[0], Escape(s[1..]));
      assert [s[0]] + s[1..] == s;
    }
  }

  /** The printed form of a token (`to_string`). */
  function TokenText(t: Token): string {
    match t
    case Ident(name) => name
    case Punct(ch) => [ch]
    case Literal(Written(text)) => text
    case Literal(Str(value)) => "\"" + Escape(value) + "\""
    case Group(d, s) => Open(d) + StreamText(s) + Close(d)
  }

  function StreamText(s: seq<Token>): string {
    if s == [] then ""
    else if |s| == 1 then TokenText(s[0])
    else TokenText(s[0]) + " " + StreamText(s[1..])
  }

  predicate AllQuotes(s: string) {
    forall k :: 0 <= k < |s| ==> s[k] == '"'
  }

  /** Drops every leading `"`. */
  function TrimStart(s: string): (r: string)
    ensures |r| <= |s| && r == s[|s| - |r|..]
    ensures AllQuotes(s[..|s| - |r|])
    ensures r != [] ==> r[0] != '"'
  {
    if s != [] && s[0] == '"' then TrimStart(s[1..]) else s
  }

  /** Drops every trailing `"`. */
  function TrimEnd(s: string): (r: string)
    ensures |r| <= |s| && r == s[..|r|]
    ensures AllQuotes(s[|r|..])
    ensures r != [] ==> r[|r| - 1] != '"'
  {
    if s != [] && s[|s| - 1] == '"' then TrimEnd(s[..|s| - 1]) else s
  }

  /** `trim_matches('"')`: the longest middle part of `s` that neither starts
      nor ends with a quote; everything cut away on either side is quotes. */
  function TrimQuotes(s: string): (r: string)
    ensures exists i, j :: 0 <= i <= j <= |s| && r == s[i..j] && AllQuotes(s[..i]) && AllQuotes(s[j..])
    ensures r != [] ==> r[0] != '"' && r[|r| - 1] != '"'
  {
    BetweenQuotes(s, TrimStart(s), TrimEnd(TrimStart(s)));
    TrimEnd(TrimStart(s))
  }

  /** A prefix `r` of a suffix `t` of `s`, with only quotes cut away on either
      side, is a slice of `s` with only quotes around it. */
  lemma BetweenQuotes(s: string, t: string, r: string)
    requires |t| <= |s| && t == s[|s| - |t|..] && AllQuotes(s[..|s| - |t|])
    requires |r| <= |t| && r == t[..|r|] && AllQuotes(t[|r|..])
    ensures exists i, j :: 0 <= i <= j <= |s| && r == s[i..j] && AllQuotes(s[..i]) && AllQuotes(s[j..])
  {
    var i := |s| - |t|;
    assert r == s[i..i + |r|];
    assert s[i + |r|..] == t[|r|..];
  }

  /** The file an invocation names: the text of the first token of its
      argument group, quotes trimmed, joined to the base directory. */
  function IncludePath(base: string, first: Token): string {
    Join(base, TrimQuotes(TokenText(first)))
  }

  function Prepend(p: seq<Token>, r: Expansion): (e: Expansion) {
    match r
    case Ok(ts) => Ok(p + ts)
    case Err(err) => Err(err)
  }

  /** The rewrite. An `include_str` identifier followed by a punctuation mark
      and a group, the invocation, becomes one string literal holding the
      named file; an identifier that does not start an invocation, and every
      other token, is kept, and a group keeps its delimiter and has its own
      stream rewritten. */
  function Expand(ts: seq<Token>, base: string, files: map<string, string>): (r: Expansion)
    decreases ts
    ensures r.Ok? ==> NoInvocation(r.value)
    ensures r.Ok? ==> (r.value == [] <==> ts == [])
    ensures r.Ok? && ts != [] ==> (r.value[0].Punct? <==> ts[0].Punct?)
  {
    if ts == [] then Ok([])
    else
      match ts[0]
      case Ident(name) =>
        if name == MacroName && |ts| > 1 && ts[1].Punct? then
          if |ts| > 2 && ts[2].Group? then
            if ts[2].stream == [] then Err(EmptyInvocation)
            else
              var path := IncludePath(base, ts[2].stream[0]);
              if path in files then
                var lit := Literal(Str(files[path]));
                PrependOne(lit, Expand(ts[3..], base, files));
                Prepend([lit], Expand(ts[3..], base, files))
              else Err(FileNotFound(path))
          else Err(NotAGroup(if |ts| > 2 then Some(ts[2]) else None))
        else
          PrependOne(ts[0], Expand(ts[1..], base, files));
          Prepend([ts[0]], Expand(ts[1..], base, files))
      case Group(d, s) =>
        (match Expand(s, base, files)
         case Err(err) => Err(err)
         case Ok(s2) =>
           PrependOne(Group(d, s2), Expand(ts[1..], base, files));
           Prepend([Group(d, s2)], Expand(ts[1..], base, files)))
      case _ =>
        PrependOne(ts[0], Expand(ts[1..], base, files));
        Prepend([ts[0]], Expand(ts[1..], base, files))
  }

  /** Putting one token before a stream with no invocation keeps it free of
      invocations, unless that token is `include_str` and the stream starts
      with a punctuation mark. */
  lemma PrependOne(h: Token, e: Expansion)
    requires e.Ok? ==> NoInvocation(e.value)
    requires h.Group? ==> NoInvocation(h.stream)
    requires IsMacroIdent(h) && e.Ok? && e.value != [] ==> !e.value[0].Punct?
    ensures Prepend([h], e).Ok? ==> NoInvocation(Prepend([h], e).value) && Prepend([h], e).value[0] == h
  {
    if e.Ok? {
      var ts := [h] + e.value;
      forall i | 0 <= i < |ts|
        ensures !(IsMacroIdent(ts[i]) && i + 1 < |ts| && ts[i + 1].Punct?) && (ts[i].Group? ==> NoInvocation(ts[i].stream))
      {
        if i > 0 {
          assert ts[i] == e.value[i - 1];
        }
        if i + 1 < |ts| {
          assert ts[i + 1] == e.value[i];
        }
      }
    }
  }

  /** The rewrite leaves no invocation behind, so rewriting its output again
      changes nothing. */
  lemma ExpandIdempotent(ts: seq<Token>, base: string, files: map<string, string>)
    requires Expand(ts, base, files).Ok?
    ensures Expand(Expand(ts, base, files).value, base, files) == Expand(ts, base, files)
  {
    VerbatimWithoutInvocation(Expand(ts, base, files).value, base, files);
  }

  /** One step of `Expand` over an invocation whose file is known. */
  lemma ExpandInvocation(ts: seq<Token>, base: string, files: map<string, string>)
    requires |ts| > 2 && IsMacroIdent(ts[0]) && ts[1].Punct? && ts[2].Group? && ts[2].stream != []
    requires IncludePath(base, ts[2].stream[0]) in files
    ensures Expand(ts, base, files) == Prepend([Literal(Str(files[IncludePath(base, ts[2].stream[0])]))], Expand(ts[3..], base, files))
  {
  }

  lemma PrependPrepend(p: seq<Token>, q: seq<Token>, r: Expansion)
    ensures Prepend(p, Prepend(q, r)) == Prepend(p + q, r)
  {
    if r.Ok? {
      assert p + (q + r.value) == (p + q) + r.value;
    }
  }

  lemma PrependNothing(r: Expansion)
    ensures Prepend([], r) == r
  {
    if r.Ok? {
      assert [] + r.value == r.value;
    }
  }

  /** `process_include_str`: a loop that pulls tokens from the stream, looking
      ahead by up to two tokens, and pushes the rewritten tokens. */
  method ProcessIncludeStr(source: seq<Token>, base: string, files: map<string, string>) returns (r: Expansion)
    ensures r == Expand(source, base, files)
    decreases source
  {
    var tokens: seq<Token> := [];
    var i := 0;
    assert source[i..] == source;
    PrependNothing(Expand(source, base, files));
    while i < |source|
      invariant 0 <= i <= |source|
      invariant Expand(source, base, files) == Prepend(tokens, Expand(source[i..], base, files))
    {
      var token := source[i];
      ghost var rest := source[i..];
      assert rest[0] == token && rest[1..] == source[i + 1..];
      i := i + 1;
      match token {
        case Ident(name) =>
          if name == MacroName && i < |source| && source[i].Punct? {
            i := i + 1;
            if i < |source| && source[i].Group? {
              var g := source[i];
              i := i + 1;
              assert rest[1] == source[i - 2] && rest[2] == g && rest[3..] == source[i..];
              if g.stream == [] {
                return Err(EmptyInvocation);
              }
              var path := IncludePath(base, g.stream[0]);
              if path !in files {
                return Err(FileNotFound(path));
              }
              ExpandInvocation(rest, base, files);
              PrependPrepend(tokens, [Literal(Str(files[path]))], Expand(source[i..], base, files));
              tokens := tokens + [Literal(Str(files[path]))];
              continue;
            }
            assert rest[1] == source[i - 1];
            assert |rest| > 2 ==> rest[2] == source[i];
            return Err(NotAGroup(if i < |source| then Some(source[i]) else None));
          }
          assert Expand(rest, base, files) == Prepend([token], Expand(source[i..], base, files));
          PrependPrepend(tokens, [token], Expand(source[i..], base, files));
        case Group(d, s) =>
          var inner := ProcessIncludeStr(s, base, files);
          if inner.Err? {
            return Err(inner.error);
          }
          assert Expand(rest, base, files) == Prepend([Group(d, inner.value)], Expand(source[i..], base, files));
          PrependPrepend(tokens, [Group(d, inner.value)], Expand(source[i..], base, files));
          tokens := tokens + [Group(d, inner.value)];
          continue;
        case _ =>
          assert Expand(rest, base, files) == Prepend([token], Expand(source[i..], base, files));
          PrependPrepend(tokens, [token], Expand(source[i..], base, files));
      }
      tokens := tokens + [token];
    }
    assert source[i..] == [];
    assert tokens + [] == tokens;
    r := Ok(tokens);
  }

  /** No `include_str` identifier at the top level of the stream. */
  predicate NoTopMacroIdent(ts: seq<Token>) {
    forall i :: 0 <= i < |ts| ==> !IsMacroIdent(ts[i])
  }

  /** Joins two expansions; the first failure in stream order wins. */
  function Concat(a: Expansion, b: Expansion): (r: Expansion) {
    match a
    case Err(e) => Err(e)
    case Ok(x) => Prepend(x, b)
  }

  /** Nowhere in the stream does `include_str` stand before a punctuation mark:
      the stream holds no invocation. */
  predicate NoInvocation(ts: seq<Token>) {
    forall i :: 0 <= i < |ts| ==>
      !(IsMacroIdent(ts[i]) && i + 1 < |ts| && ts[i + 1].Punct?) &&
      (ts[i].Group? ==> NoInvocation(ts[i].stream))
  }

  /** Verbatim preservation: a stream holding no invocation comes out
      unchanged. */
  lemma {:induction false} VerbatimWithoutInvocation(ts: seq<Token>, base: string, files: map<string, string>)
    requires NoInvocation(ts)
    ensures Expand(ts, base, files) == Ok(ts)
    decreases ts
  {
    if ts != [] {
      var tail := ts[1..];
      assert NoInvocation(tail) by {
        forall i | 0 <= i < |tail|
          ensures !(IsMacroIdent(tail[i]) && i + 1 < |tail| && tail[i + 1].Punct?) && (tail[i].Group? ==> NoInvocation(tail[i].stream))
        {
          assert tail[i] == ts[i + 1];
          assert i + 1 < |tail| ==> tail[i + 1] == ts[i + 2];
        }
      }
      VerbatimWithoutInvocation(tail, base, files);
      if ts[0].Group? {
        VerbatimWithoutInvocation(ts[0].stream, base, files);
      }
      assert [ts[0]] + tail == ts;
    }
  }

  /** Away from `include_str`, the rewrite copies token for token: every
      non-group token is kept as it is, in its place, and every group keeps its
      delimiter and has its own stream rewritten; the rewrite fails exactly when
      the rewrite of one of the groups fails. */
  lemma {:induction false} CopiesTokenForToken(ts: seq<Token>, base: string, files: map<string, string>)
    requires NoTopMacroIdent(ts)
    ensures Expand(ts, base, files).Ok? <==> forall i :: 0 <= i < |ts| && ts[i].Group? ==> Expand(ts[i].stream, base, files).Ok?
    ensures Expand(ts, base, files).Ok? ==>
      var r := Expand(ts, base, files).value;
      |r| == |ts| &&
      forall i :: 0 <= i < |ts| ==>
        r[i] == if ts[i].Group? then Group(ts[i].delim, Expand(ts[i].stream, base, files).value) else ts[i]
    decreases ts
  {
    if ts != [] {
      var tail := ts[1..];
      assert NoTopMacroIdent(tail) by {
        forall i | 0 <= i < |tail| ensures !IsMacroIdent(tail[i]) {
          assert tail[i] == ts[i + 1];
        }
      }
      CopiesTokenForToken(tail, base, files);
      forall i | 0 <= i < |tail| ensures tail[i] == ts[i + 1] { }
      if Expand(ts, base, files).Ok? {
        var r := Expand(ts, base, files).value;
        var r1 := Expand(tail, base, files).value;
        assert r == [r[0]] + r1;
        forall i | 0 <= i < |ts|
          ensures r[i] == if ts[i].Group? then Group(ts[i].delim, Expand(ts[i].stream, base, files).value) else ts[i]
        {
          if i > 0 {
            assert r[i] == r1[i - 1];
          }
        }
      }
    }
  }

  /** A prefix without a top-level `include_str` is rewritten independently of
      what follows it: rewriting a concatenation concatenates the rewrites. */
  lemma {:induction false} ExpandConcat(xs: seq<Token>, ys: seq<Token>, base: string, files: map<string, string>)
    requires NoTopMacroIdent(xs)
    ensures Expand(xs + ys, base, files) == Concat(Expand(xs, base, files), Expand(ys, base, files))
    decreases xs
  {
    if xs == [] {
      assert xs + ys == ys;
      PrependNothing(Expand(ys, base, files));
    } else {
      var tail := xs[1..];
      assert NoTopMacroIdent(tail) by {
        forall i | 0 <= i < |tail| ensures !IsMacroIdent(tail[i]) {
          assert tail[i] == xs[i + 1];
        }
      }
      ExpandConcat(tail, ys, base, files);
      assert (xs + ys)[0] == xs[0] && (xs + ys)[1..] == tail + ys;
      var head := if xs[0].Group? then Expand(xs[0].stream, base, files) else Ok([]);
      if head.Ok? {
        var h := if xs[0].Group? then [Group(xs[0].delim, head.value)] else [xs[0]];
        assert Expand(xs + ys, base, files) == Prepend(h, Expand(tail + ys, base, files));
        assert Expand(xs, base, files) == Prepend(h, Expand(tail, base, files));
        if Expand(tail, base, files).Ok? {
          PrependPrepend(h, Expand(tail, base, files).value, Expand(ys, base, files));
        }
      }
    }
  }

  /** `include_str` + any punctuation + a group: the three tokens become one
      string literal holding the file named by the group's first token; an empty
      group or a missing file is a failure. */
  lemma InvocationBecomesLiteral(c: char, d: Delimiter, args: seq<Token>, rest: seq<Token>, base: string, files: map<string, string>)
    ensures var r := Expand([Ident(MacroName), Punct(c), Group(d, args)] + rest, base, files);
      if args == [] then r == Err(EmptyInvocation)
      else if IncludePath(base, args[0]) !in files then r == Err(FileNotFound(IncludePath(base, args[0])))
      else r == Prepend([Literal(Str(files[IncludePath(base, args[0])]))], Expand(rest, base, files))
  {
    var ts := [Ident(MacroName), Punct(c), Group(d, args)] + rest;
    assert ts[0] == Ident(MacroName) && ts[1] == Punct(c) && ts[2] == Group(d, args) && ts[3..] == rest;
  }

  /** `include_str` + punctuation followed by anything but a group, or by
      nothing, is a failure. */
  lemma InvocationWithoutGroupFails(c: char, t: Token, rest: seq<Token>, base: string, files: map<string, string>)
    ensures !t.Group? ==> Expand([Ident(MacroName), Punct(c), t] + rest, base, files) == Err(NotAGroup(Some(t)))
    ensures Expand([Ident(MacroName), Punct(c)], base, files) == Err(NotAGroup(None))
  {
    var ts := [Ident(MacroName), Punct(c), t] + rest;
    assert ts[0] == Ident(MacroName) && ts[1] == Punct(c) && ts[2] == t;
  }

  /** `include_str` not followed by punctuation is an ordinary identifier: it
      is kept, and the rest of the stream, from the very next token on, is
      rewritten as usual. */
  lemma LoneMacroIdentKept(t: Token, rest: seq<Token>, base: string, files: map<string, string>)
    requires !t.Punct?
    ensures Expand([Ident(MacroName), t] + rest, base, files) == Prepend([Ident(MacroName)], Expand([t] + rest, base, files))
    ensures Expand([Ident(MacroName)], base, files) == Ok([Ident(MacroName)])
  {
    var ts := [Ident(MacroName), t] + rest;
    assert ts[0] == Ident(MacroName) && ts[1..] == [t] + rest;
    assert [Ident(MacroName)][1..] == [] && [Ident(MacroName)] + [] == [Ident(MacroName)];
  }

  /** `t` occurs in `s` as a contiguous part. */
  predicate Contains(s: string, t: string) {
    exists i :: 0 <= i <= |s| - |t| && OccursAt(s, t, i)
  }

  predicate OccursAt(s: string, t: string, i: int)
    requires 0 <= i <= |s| - |t|
  {
    s[i..i + |t|] == t
  }

  /** Every token's printed form occurs in the printed stream. */
  lemma {:induction false} StreamTextContains(a: seq<Token>, t: Token, b: seq<Token>)
    ensures Contains(StreamText(a + [t] + b), TokenText(t))
    decreases |a|
  {
    var s := StreamText(a + [t] + b);
    var u := TokenText(t);
    if a == [] {
      assert a + [t] + b == [t] + b;
      assert ([t] + b)[1..] == b;
      assert s[0..|u|] == u;
      assert OccursAt(s, u, 0);
    } else {
      StreamTextContains(a[1..], t, b);
      var rest := StreamText(a[1..] + [t] + b);
      var i :| 0 <= i <= |rest| - |u| && OccursAt(rest, u, i);
      var xs := a + [t] + b;
      assert |xs| > 1 && xs[0] == a[0] && xs[1..] == a[1..] + [t] + b;
      var h := TokenText(a[0]) + " ";
      assert s == h + rest;
      OccursAfter(h, rest, u, i);
    }
  }

  /** An occurrence in `rest` is an occurrence in `h + rest`, `|h|` further on. */
  lemma OccursAfter(h: string, rest: string, u: string, i: int)
    requires 0 <= i <= |rest| - |u| && OccursAt(rest, u, i)
    ensures 0 <= |h| + i <= |h + rest| - |u| && OccursAt(h + rest, u, |h| + i)
  {
    assert (h + rest)[|h| + i..|h| + i + |u|] == rest[i..i + |u|];
  }

  /** The rewrite of a stream with one invocation of a readable file, and
      nothing that fails around it: the rewrites of the parts around one
      string literal holding the file. */
  lemma ExpandAroundInvocation(pre: seq<Token>, call: seq<Token>, post: seq<Token>, lit: Token,
                               base: string, files: map<string, string>)
    requires NoTopMacroIdent(pre) && Expand(pre, base, files).Ok? && Expand(post, base, files).Ok?
    requires Expand(call + post, base, files) == Prepend([lit], Expand(post, base, files))
    ensures Expand(pre + call + post, base, files)
         == Ok(Expand(pre, base, files).value + [lit] + Expand(post, base, files).value)
  {
    var x, y := Expand(pre, base, files).value, Expand(post, base, files).value;
    assert pre + call + post == pre + (call + post);
    ExpandConcat(pre, call + post, base, files);
    PrependPrepend(x, [lit], Ok(y));
    assert x + [lit] + y == x + ([lit] + y);
  }

  /** A stream with one invocation of a readable file, and nothing that fails
      around it, prints with the file's contents as a quoted string literal in
      its text. */
  lemma InvocationPrinted(pre: seq<Token>, c: char, d: Delimiter, arg: Token, args: seq<Token>, post: seq<Token>,
                          base: string, files: map<string, string>)
    requires NoTopMacroIdent(pre) && Expand(pre, base, files).Ok? && Expand(post, base, files).Ok?
    requires IncludePath(base, arg) in files
    ensures var r := Expand(pre + [Ident(MacroName), Punct(c), Group(d, [arg] + args)] + post, base, files);
      r.Ok? && Contains(StreamText(r.value), "\"" + Escape(files[IncludePath(base, arg)]) + "\"")
  {
    var call := [Ident(MacroName), Punct(c), Group(d, [arg] + args)];
    var lit := Literal(Str(files[IncludePath(base, arg)]));
    InvocationBecomesLiteral(c, d, [arg] + args, post, base, files);
    ExpandAroundInvocation(pre, call, post, lit, base, files);
    StreamTextContains(Expand(pre, base, files).value, lit, Expand(post, base, files).value);
  }

  // The rewrite as the repository writes it.

  /** The rewrite as the repository writes it. An `include_str` identifier
      followed by a punctuation mark and a group becomes one string literal;
      followed by anything else it is pushed, then the token after it, then
      itself once more, and that next token is not rewritten. */
  function ExpandAsWritten(ts: seq<Token>, base: string, files: map<string, string>): (r: Expansion)
    decreases ts
    ensures r.Ok? ==> (r.value == [] <==> ts == [])
  {
    if ts == [] then Ok([])
    else
      match ts[0]
      case Ident(name) =>
        if name != MacroName then Prepend([ts[0]], ExpandAsWritten(ts[1..], base, files))
        else if |ts| > 1 && ts[1].Punct? then
          if |ts| > 2 && ts[2].Group? then
            if ts[2].stream == [] then Err(EmptyInvocation)
            else
              var path := IncludePath(base, ts[2].stream[0]);
              if path in files then Prepend([Literal(Str(files[path]))], ExpandAsWritten(ts[3..], base, files))
              else Err(FileNotFound(path))
          else Err(NotAGroup(if |ts| > 2 then Some(ts[2]) else None))
        else if |ts| > 1 then Prepend([ts[0], ts[1], ts[0]], ExpandAsWritten(ts[2..], base, files))
        else Ok([ts[0], ts[0]])
      case Group(d, s) =>
        (match ExpandAsWritten(s, base, files)
         case Err(err) => Err(err)
         case Ok(s2) => Prepend([Group(d, s2)], ExpandAsWritten(ts[1..], base, files)))
      case _ => Prepend([ts[0]], ExpandAsWritten(ts[1..], base, files))
  }

  /** `include_str` not followed by punctuation: the identifier, the next token
      (not rewritten, even when it is a group) and the identifier again; at the
      end of the stream, the identifier twice. */
  lemma MacroIdentWithoutPunct(t: Token, rest: seq<Token>, base: string, files: map<string, string>)
    requires !t.Punct?
    ensures ExpandAsWritten([Ident(MacroName), t] + rest, base, files) == Prepend([Ident(MacroName), t, Ident(MacroName)], ExpandAsWritten(rest, base, files))
    ensures ExpandAsWritten([Ident(MacroName)], base, files) == Ok([Ident(MacroName), Ident(MacroName)])
  {
    var ts := [Ident(MacroName), t] + rest;
    assert ts[0] == Ident(MacroName) && ts[1] == t && ts[2..] == rest;
  }

  /** The counterexample: `fn include_str() {}` holds no invocation, yet the
      rewrite as written turns it into `fn include_str () include_str {}`;
      the corrected rewrite keeps it. */
  lemma AsWrittenAltersNonInvocation(base: string, files: map<string, string>)
    ensures var ts := [Ident("fn"), Ident(MacroName), Group(Parenthesis, []), Group(Brace, [])];
      NoInvocation(ts) &&
      ExpandAsWritten(ts, base, files) == Ok([Ident("fn"), Ident(MacroName), Group(Parenthesis, []), Ident(MacroName), Group(Brace, [])]) &&
      ExpandAsWritten(ts, base, files) != Ok(ts) &&
      Expand(ts, base, files) == Ok(ts)
  {
    var ts := [Ident("fn"), Ident(MacroName), Group(Parenthesis, []), Group(Brace, [])];
    assert ts[1..] == [Ident(MacroName), Group(Parenthesis, [])] + [Group(Brace, [])];
    MacroIdentWithoutPunct(Group(Parenthesis, []), [Group(Brace, [])], base, files);
    assert ExpandAsWritten([], base, files) == Ok([]);
    assert [Group(Brace, [])][1..] == [] && [Group(Brace, [])] + [] == [Group(Brace, [])];
    assert ExpandAsWritten([Group(Brace, [])], base, files) == Ok([Group(Brace, [])]);
    var tail := [Ident(MacroName), Group(Parenthesis, []), Ident(MacroName), Group(Brace, [])];
    assert [Ident(MacroName), Group(Parenthesis, []), Ident(MacroName)] + [Group(Brace, [])] == tail;
    assert ExpandAsWritten(ts[1..], base, files) == Ok(tail);
    assert [Ident("fn")] + tail == [Ident("fn"), Ident(MacroName), Group(Parenthesis, []), Ident(MacroName), Group(Brace, [])];
    assert ExpandAsWritten(ts, base, files) == Prepend([Ident("fn")], Ok(tail));
    VerbatimWithoutInvocation(ts, base, files);
  }
}
