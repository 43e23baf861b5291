/**
 * What `_parse_command_content` promises: blank input, the subcommand,
 * the option grammar (checked by rendering a parse result as tokens and
 * scanning it back), and how the text after the subcommand is found.
 */
module CommandLaws {
  import opened Wrappers
  import opened Errors
  import opened PyStrings
  import opened Commands

  // ---------------------------------------------------------------------
  // Blank input and the subcommand (lines 125-131).

  /** The parse is `("", [], [])` exactly when the content is blank. */
  lemma ParseBlankIff(content: string)
    ensures ParseCommand(content) == Ok(Command("", [], []))
            <==> forall i :: 0 <= i < |content| ==> IsSpace(content[i])
  {
    WordsEmptyIff(content);
    var ws := Words(content);
    if ws != [] {
      WordsAreWords(content);
      assert ws[0] != [];
      ParseSubcommand(content);
    }
  }

  /** Otherwise the subcommand is the first word, and it is also the first
      positional argument. */
  lemma ParseSubcommand(content: string)
    requires Words(content) != []
    ensures ParseCommand(content).Ok? ==>
              && ParseCommand(content).value.sub == Words(content)[0]
              && ParseCommand(content).value.sub == TakeWord(LStripSpace(content))
              && ParseCommand(content).value.args != []
              && ParseCommand(content).value.args[0] == ParseCommand(content).value.sub
  {
    FirstWord(content);
    SubIsFirstWord(content);
  }

  lemma SubIsFirstWord(content: string)
    requires Words(content) != []
    ensures ParseCommand(content).Ok? ==>
              && ParseCommand(content).value.sub == Words(content)[0]
              && ParseCommand(content).value.args != []
              && ParseCommand(content).value.args[0] == Words(content)[0]
  {
    var ws := Words(content);
    if |ws| == 1 {
      ParseOneWord(content);
    } else {
      var r := Tokens(content, ws[0]);
      if r.Ok? {
        ParseTokens(content, r.value);
      }
    }
  }

  /** A single word is the whole parse. */
  lemma ParseOneWord(content: string)
    requires |Words(content)| == 1
    ensures ParseCommand(content) == Ok(Command(Words(content)[0], Words(content), []))
  {
    var ws := Words(content);
    assert ws == [ws[0]];
  }

  /** Only an empty piece between quotes makes the parse raise, and then
      it raises `IndexError`. */
  lemma ParseRaises(content: string)
    ensures ParseCommand(content).Err? ==> ParseCommand(content).error == IndexError && |Words(content)| > 1
  {
    var ws := Words(content);
    if |ws| == 1 {
      ParseOneWord(content);
    } else if |ws| > 1 {
      var r := Tokens(content, ws[0]);
      if r.Err? {
        ParseTokensErr(content);
      } else {
        ParseTokens(content, r.value);
      }
    }
  }

  /** A raising token pass makes the whole parse raise the same error. */
  lemma ParseTokensErr(content: string)
    requires |Words(content)| > 1 && Tokens(content, Words(content)[0]).Err?
    ensures ParseCommand(content) == Err(Tokens(content, Words(content)[0]).error)
  {
  }

  // ---------------------------------------------------------------------
  // The option grammar (lines 144-169), by a round trip.

  /** An option the scan can give back: a name that does not start with a
      dash, and a value that is non-empty, does not start with a dash and
      has no quote at either end. */
  predicate RenderableOpt(o: Opt) {
    && o.name != [] && o.name[0] != '-'
    && (o.value.Some? ==> |o.value.value| > 0 && o.value.value[0] != '-' && o.value.value[0] != '"'
                          && o.value.value[|o.value.value| - 1] != '"')
  }

  /** The tokens `--name value` (or `--name`) of each option, in order. */
  function RenderOpts(opts: seq<Opt>): seq<string> {
    if opts == [] then []
    else ["--" + opts[0].name] + (if opts[0].value.Some? then [opts[0].value.value] else []) + RenderOpts(opts[1..])
  }

  /** Each positional argument as a quoted group. */
  function RenderArgs(args: seq<string>): seq<string> {
    if args == [] then [] else ["\"" + args[0] + "\""] + RenderArgs(args[1..])
  }

  /** Tokens for a parse result: positional arguments first, then options. */
  function Render(s: Scanned): seq<string> {
    RenderArgs(s.args) + RenderOpts(s.opts)
  }

  /** Scanning rendered tokens gives the arguments and options back. */
  lemma ScanRender(s: Scanned)
    requires forall k :: 0 <= k < |s.opts| ==> RenderableOpt(s.opts[k])
    ensures Scan(Render(s)) == s
  {
    ScanRenderArgs(s.args, s.opts);
  }

  lemma {:induction false} ScanRenderArgs(args: seq<string>, opts: seq<Opt>)
    requires forall k :: 0 <= k < |opts| ==> RenderableOpt(opts[k])
    ensures Scan(RenderArgs(args) + RenderOpts(opts)) == Scanned(args, opts)
    decreases |args|
  {
    if args == [] {
      assert RenderArgs(args) + RenderOpts(opts) == RenderOpts(opts);
      ScanRenderOpts(opts);
    } else {
      var ts := RenderArgs(args) + RenderOpts(opts);
      var q := "\"" + args[0] + "\"";
      assert ts == [q] + (RenderArgs(args[1..]) + RenderOpts(opts));
      assert ts[0] == q && ts[1..] == RenderArgs(args[1..]) + RenderOpts(opts);
      assert Inner(q) == args[0];
      ScanQuoted(ts);
      ScanRenderArgs(args[1..], opts);
    }
  }

  /** Rendered options start with a dash, so none of them is taken as the
      value of the option before it. */
  lemma RenderOptsHead(opts: seq<Opt>)
    requires opts != []
    ensures RenderOpts(opts) != [] && Long(RenderOpts(opts)[0])
  {
  }

  lemma {:induction false} ScanRenderOpts(opts: seq<Opt>)
    requires forall k :: 0 <= k < |opts| ==> RenderableOpt(opts[k])
    ensures Scan(RenderOpts(opts)) == Scanned([], opts)
    decreases |opts|
  {
    if opts != [] {
      assert forall k :: 0 <= k < |opts[1..]| ==> opts[1..][k] == opts[k + 1];
      ScanRenderOpts(opts[1..]);
      assert RenderableOpt(opts[0]);
      ScanRenderOne(opts[0], opts[1..]);
      assert [opts[0]] + opts[1..] == opts;
    }
  }

  /** One rendered option before the rendering of the rest. */
  lemma ScanRenderOne(o: Opt, more: seq<Opt>)
    requires RenderableOpt(o) && Scan(RenderOpts(more)) == Scanned([], more)
    ensures Scan(RenderOpts([o] + more)) == Scanned([], [o] + more)
  {
    assert ([o] + more)[0] == o && ([o] + more)[1..] == more;
    if o.value.Some? {
      assert RenderOpts([o] + more) == ["--" + o.name, o.value.value] + RenderOpts(more);
      ScanValued(o.name, o.value.value, RenderOpts(more));
    } else {
      assert RenderOpts([o] + more) == ["--" + o.name] + RenderOpts(more);
      if more != [] {
        RenderOptsHead(more);
      }
      ScanBare(o.name, RenderOpts(more));
    }
  }

  lemma ScanValued(name: string, v: string, rest: seq<string>)
    requires RenderableOpt(Opt(name, Some(v)))
    ensures Scan(["--" + name, v] + rest) == Scanned(Scan(rest).args, [Opt(name, Some(v))] + Scan(rest).opts)
  {
    var a := "--" + name;
    assert Long(a) by {
      assert a[0] == '-' && a[1] == '-';
    }
    ScanPair(a, v, rest);
    OptOfRendered(name, Some(v));
  }

  /** An option and its value before further tokens. */
  lemma ScanPair(a: string, v: string, rest: seq<string>)
    requires Long(a) && v != [] && v[0] != '-'
    ensures Scan([a, v] + rest) == Scanned(Scan(rest).args, [OptOf(a, Some(v))] + Scan(rest).opts)
  {
    var ts := [a, v] + rest;
    assert ts[0] == a && ts[1] == v && ts[2..] == rest;
    ScanLongValue(ts);
  }

  lemma OptOfRendered(name: string, v: Option<string>)
    requires name != [] && name[0] != '-'
    requires v.Some? ==> v.value != [] && v.value[0] != '"' && v.value[|v.value| - 1] != '"'
    ensures OptOf("--" + name, v) == Opt(name, v)
  {
    StripDashes(name);
    if v.Some? {
      KeepQuotes(v.value);
    }
  }

  lemma ScanBare(name: string, rest: seq<string>)
    requires name != [] && name[0] != '-'
    requires rest == [] || (rest[0] != [] && rest[0][0] == '-')
    ensures Scan(["--" + name] + rest) == Scanned(Scan(rest).args, [Opt(name, None)] + Scan(rest).opts)
  {
    var a := "--" + name;
    var ts := [a] + rest;
    assert a[0] == '-' && a[1] == '-';
    assert ts[0] == a && ts[1..] == rest;
    OptOfRendered(name, None);
    if rest == [] {
      ScanLongLast(ts);
    } else {
      assert ts[1] == rest[0];
      ScanLongAlone(ts);
    }
  }

  /** `("--" + name).lstrip("-")` is `name` when `name` has no leading dash. */
  lemma StripDashes(name: string)
    requires name != [] && name[0] != '-'
    ensures LStripChars("--" + name, "-") == name
  {
    assert ("--" + name)[1..] == "-" + name;
    assert ("-" + name)[1..] == name;
  }

  /** `v.strip('"')` is `v` when neither end is a quote. */
  lemma KeepQuotes(v: string)
    requires v != [] && v[0] != '"' && v[|v| - 1] != '"'
    ensures StripChars(v, "\"") == v
  {
  }

  /** Lines 167-168: tokens that are neither quoted nor dashed are the
      positional arguments, in input order, and give no option. */
  lemma {:induction false} ScanPlainTokens(ts: seq<string>)
    requires forall k :: 0 <= k < |ts| ==> !Quoted(ts[k]) && !Dashed(ts[k])
    ensures Scan(ts) == Scanned(ts, [])
    decreases |ts|
  {
    if ts != [] {
      ScanPlain(ts);
      assert forall k :: 0 <= k < |ts[1..]| ==> ts[1..][k] == ts[k + 1];
      ScanPlainTokens(ts[1..]);
    }
  }

  /** Lines 156-164: `-x` followed by another token scans as `--x` does;
      as the last token it is dropped, where `--x` gives `(x, None)`. */
  lemma ShortLikeLong(x: char, rest: seq<string>)
    requires x != '-'
    ensures rest != [] ==> Scan([['-', x]] + rest) == Scan([['-', '-', x]] + rest)
    ensures Scan([['-', x]]) == Scanned([], [])
    ensures Scan([['-', '-', x]]) == Scanned([], [Opt([x], None)])
  {
    ScanShortLast([['-', x]]);
    DashNames(x);
    ScanLongLast([['-', '-', x]]);
    if rest != [] {
      ShortPair(x, rest);
    }
  }

  /** Both `-x` and `--x` name the option `x`. */
  lemma DashNames(x: char)
    requires x != '-'
    ensures LStripChars(['-', x], "-") == [x]
    ensures LStripChars(['-', '-', x], "-") == [x]
  {
    var a := ['-', x];
    var b := ['-', '-', x];
    StripNoDash([x]);
    assert a[1..] == [x];
    StripOneDash(a);
    assert b[1..] == a;
    StripOneDash(b);
  }

  lemma StripOneDash(t: string)
    requires t != [] && t[0] == '-'
    ensures LStripChars(t, "-") == LStripChars(t[1..], "-")
  {
  }

  lemma StripNoDash(t: string)
    requires t == [] || t[0] != '-'
    ensures LStripChars(t, "-") == t
  {
  }

  lemma ShortPair(x: char, rest: seq<string>)
    requires x != '-' && rest != []
    ensures Scan([['-', x]] + rest) == Scan([['-', '-', x]] + rest)
  {
    DashNames(x);
    var s := [['-', x]] + rest;
    var l := [['-', '-', x]] + rest;
    assert s[1..] == rest && l[1..] == rest;
    PairLikeLong(s, l);
  }

  /** A two-character `-x` and `--x` with the same tokens after them scan
      alike. */
  lemma PairLikeLong(s: seq<string>, l: seq<string>)
    requires |s| >= 2 && |l| == |s| && s[1..] == l[1..]
    requires Dashed(s[0]) && !Long(s[0]) && |s[0]| == 2 && Long(l[0])
    requires LStripChars(s[0], "-") == LStripChars(l[0], "-")
    ensures Scan(s) == Scan(l)
  {
    ShortStep(s);
    LongStep(l);
    assert OptOf(s[0], None) == OptOf(l[0], None);
    assert OptOf(s[0], Some(s[1])) == OptOf(l[0], Some(l[1]));
    if Dashed(s[1]) {
      ScanAtDrop(s, 1);
      ScanAtDrop(l, 1);
    } else {
      ScanAtDrop(s, 2);
      ScanAtDrop(l, 2);
    }
  }

  /** The scan of a two-character `-x` followed by at least one token. */
  lemma ShortStep(s: seq<string>)
    requires |s| >= 2 && Dashed(s[0]) && !Long(s[0]) && |s[0]| == 2
    ensures Scan(s) == if Dashed(s[1]) then WithOpt(OptOf(s[0], None), ScanAt(s, 1))
                       else WithOpt(OptOf(s[0], Some(s[1])), ScanAt(s, 2))
  {
    assert !Quoted(s[0]);
    assert Scan(s) == ScanShortAt(s, 0);
  }

  /** The scan of `--x` followed by at least one token. */
  lemma LongStep(l: seq<string>)
    requires |l| >= 2 && Long(l[0])
    ensures Scan(l) == if Dashed(l[1]) then WithOpt(OptOf(l[0], None), ScanAt(l, 1))
                       else WithOpt(OptOf(l[0], Some(l[1])), ScanAt(l, 2))
  {
    assert !Quoted(l[0]);
    assert Scan(l) == ScanLongAt(l, 0);
  }

  /** Line 166: a cluster `-xyz` gives `(x, None), (y, None), (z, None)`
      before whatever follows. */
  lemma ScanFlagCluster(cs: string, rest: seq<string>)
    requires |cs| >= 2 && cs[0] != '-'
    ensures |Scan([['-'] + cs] + rest).opts| >= |cs|
    ensures Scan([['-'] + cs] + rest).opts[..|cs|] == Flags(cs)
    ensures forall k :: 0 <= k < |cs| ==> Scan([['-'] + cs] + rest).opts[k] == Opt([cs[k]], None)
    ensures Scan([['-'] + cs] + rest).args == Scan(rest).args
  {
    var ts := [['-'] + cs] + rest;
    assert ts[0] == ['-'] + cs && ts[1..] == rest;
    assert ts[0][1..] == cs;
    ScanCluster(ts);
  }

  // ---------------------------------------------------------------------
  // The text after the subcommand (lines 133-141).

  predicate NoQuote(s: string) {
    forall i :: 0 <= i < |s| ==> s[i] != '"'
  }

  /** Splitting text without quotes at a separator that holds one gives
      the text back whole. */
  lemma SplitNoQuote(s: string, sep: string, q: nat)
    requires NoQuote(s) && q < |sep| && sep[q] == '"'
    ensures SplitSep(s, sep) == [s]
  {
  }

  lemma SuffixNoQuote(s: string, t: string)
    requires NoQuote(s) && |t| <= |s| && t == s[|s| - |t|..]
    ensures NoQuote(t)
  {
    forall i | 0 <= i < |t| ensures t[i] != '"' {
      assert t[i] == s[|s| - |t| + i];
    }
  }

  /** The text after the subcommand, before the quotes are doubled. */
  function After(content: string, sub: string): string {
    LStripSpace(LStripChars(content, sub))
  }

  /** Without quotes, the tokens are the words after the subcommand, and an
      empty rest is the empty piece that raises. */
  lemma TokensUnquoted(content: string, sub: string)
    requires NoQuote(content)
    ensures After(content, sub) != [] ==> Tokens(content, sub) == Ok(Words(After(content, sub)))
    ensures After(content, sub) == [] ==> Tokens(content, sub) == Err(IndexError)
  {
    var r := After(content, sub);
    SuffixNoQuote(content, LStripChars(content, sub));
    SuffixNoQuote(LStripChars(content, sub), r);
    SplitNoQuote(r, "\"", 0);
    assert Rest(content, sub) == r;
    SplitNoQuote(r, " \"", 1);
    SplitNoQuote(r, "\" ", 0);
    PiecesOne(r);
    if r != [] {
      TokensOne(r);
    }
  }

  lemma TokensOne(r: string)
    requires r != [] && r[0] != '"'
    ensures TokensOf([r]) == Ok(Words(r))
  {
    assert [r][1..] == [];
    assert TokensOf([r][1..]) == Ok([]);
    assert PieceTokens(r) == Words(r);
    assert Words(r) + [] == Words(r);
  }

  lemma PiecesOne(r: string)
    requires SplitSep(r, "\" ") == [r]
    ensures Pieces([r]) == [r]
  {
    assert [r][1..] == [];
  }

  /** `s.lstrip(chars)` removes a leading run of `chars` when the next
      character is not one of them. */
  lemma {:induction false} LStripPrefix(p: string, t: string, chars: string)
    requires forall i :: 0 <= i < |p| ==> p[i] in chars
    requires t == [] || t[0] !in chars
    ensures LStripChars(p + t, chars) == t
    decreases |p|
  {
    if p == [] {
      assert p + t == t;
    } else {
      assert (p + t)[1..] == p[1..] + t;
      LStripPrefix(p[1..], t, chars);
    }
  }

  lemma LStripSpaceIdem(s: string)
    ensures LStripSpace(LStripSpace(s)) == LStripSpace(s)
  {
  }

  /** Leading whitespace does not change the words. */
  lemma WordsLStrip(s: string)
    ensures Words(LStripSpace(s)) == Words(s)
  {
    LStripSpaceIdem(s);
  }

  /** With no leading whitespace, the text after the subcommand has the
      remaining words. */
  lemma AfterSkipsSub(content: string)
    requires Words(content) != [] && !IsSpace(content[0])
    ensures Words(After(content, Words(content)[0])) == Words(content)[1..]
  {
    var w := TakeWord(content);
    WordsHead(content);
    FirstWord(content);
    assert LStripSpace(content) == content;
    StripSub(content);
    WordsLStrip(content[|w|..]);
  }

  /** Without leading whitespace the first word is the first run of
      non-whitespace characters. */
  lemma WordsHead(content: string)
    requires content != [] && !IsSpace(content[0])
    ensures Words(content) == [TakeWord(content)] + Words(content[|TakeWord(content)|..])
  {
    assert LStripSpace(content) == content;
  }

  /** `content.lstrip(w)` for the first run `w` removes exactly that run. */
  lemma StripSub(content: string)
    requires content != [] && !IsSpace(content[0])
    ensures LStripChars(content, TakeWord(content)) == content[|TakeWord(content)|..]
  {
    var w := TakeWord(content);
    var t := content[|w|..];
    assert content == w + t;
    assert forall i :: 0 <= i < |w| ==> w[i] in w;
    if t != [] {
      assert IsSpace(t[0]);
      assert t[0] !in w;
    }
    LStripPrefix(w, t, w);
  }

  /** With leading whitespace, `lstrip(sub)` removes nothing: the text
      after the subcommand still holds all the words, the subcommand too. */
  lemma AfterKeepsSub(content: string)
    requires Words(content) != [] && IsSpace(content[0])
    ensures Words(After(content, Words(content)[0])) == Words(content)
  {
    WordsAreWords(content);
    var w := Words(content)[0];
    assert content[0] !in w;
    assert LStripChars(content, w) == content;
    WordsLStrip(content);
  }

  /** Plain words without leading whitespace parse to the words
      themselves as the arguments, the subcommand first. */
  lemma ParsePlainWords(content: string)
    requires PlainLine(content)
    ensures ParseCommand(content) == Ok(Command(Words(content)[0], Words(content), []))
  {
    var rest := PlainRest(content);
    ScanPlainTokens(rest);
    ParseTokens(content, rest);
  }

  /** Text without quotes, starting with a word, of several words none of
      which starts with a dash. */
  predicate PlainLine(content: string) {
    && content != [] && !IsSpace(content[0]) && NoQuote(content) && |Words(content)| > 1
    && forall k :: 0 <= k < |Words(content)| ==> !Dashed(Words(content)[k])
  }

  /** The tokens after the subcommand are the other words, none of them
      quoted or dashed. */
  lemma PlainRest(content: string) returns (rest: seq<string>)
    requires PlainLine(content)
    ensures Words(content) == [Words(content)[0]] + rest
    ensures Tokens(content, Words(content)[0]) == Ok(rest)
    ensures forall k :: 0 <= k < |rest| ==> !Quoted(rest[k]) && !Dashed(rest[k])
  {
    var ws := Words(content);
    AfterSkipsSub(content);
    var r := After(content, ws[0]);
    rest := Words(r);
    assert rest == ws[1..] && rest != [];
    assert r != [];
    TokensUnquoted(content, ws[0]);
    WordsNoQuote(content);
    TailPlain(ws);
    assert [ws[0]] + ws[1..] == ws;
  }

  /** The words after the first of quote-free, dash-free words are
      neither quoted nor dashed. */
  lemma TailPlain(ws: seq<string>)
    requires ws != [] && AllNoQuote(ws)
    requires forall k :: 0 <= k < |ws| ==> !Dashed(ws[k])
    ensures forall k :: 0 <= k < |ws[1..]| ==> !Quoted(ws[1..][k]) && !Dashed(ws[1..][k])
  {
    forall k | 0 <= k < |ws[1..]| ensures !Quoted(ws[1..][k]) && !Dashed(ws[1..][k]) {
      assert ws[1..][k] == ws[k + 1];
      assert NoQuote(ws[k + 1]);
    }
  }

  /** The parse of more than one word, given the tokens of the rest. */
  lemma ParseTokens(content: string, ts: seq<string>)
    requires |Words(content)| > 1 && Tokens(content, Words(content)[0]) == Ok(ts)
    ensures ParseCommand(content) == Ok(Command(Words(content)[0], [Words(content)[0]] + Scan(ts).args, Scan(ts).opts))
  {
  }

  /** The same words after leading whitespace repeat the subcommand: it is
      also scanned as the first token of the rest. */
  lemma ParseLeadingSpace(content: string)
    requires NoQuote(content) && |Words(content)| > 1 && IsSpace(content[0])
    requires forall k :: 0 <= k < |Words(content)| ==> !Dashed(Words(content)[k])
    ensures ParseCommand(content) == Ok(Command(Words(content)[0], [Words(content)[0]] + Words(content), []))
  {
    var ws := Words(content);
    AfterKeepsSub(content);
    var r := After(content, ws[0]);
    assert Words(r) != [];
    TokensUnquoted(content, ws[0]);
    forall k | 0 <= k < |ws| ensures !Quoted(ws[k]) && !Dashed(ws[k]) {
      WordHasNoQuote(content, k);
    }
    ScanPlainTokens(ws);
  }

  /** The parse as evidently intended: leading whitespace is stripped
      first, so `lstrip(sub)` always finds the subcommand at the start. */
  function ParseStripped(content: string): Result<Command, Error> {
    ParseCommand(LStripSpace(content))
  }

  /** With the strip, plain words parse to the words themselves as the
      arguments whatever whitespace leads them: the subcommand appears
      once. */
  lemma StrippedPlainWords(content: string)
    requires NoQuote(content) && |Words(content)| > 1
    requires forall k :: 0 <= k < |Words(content)| ==> !Dashed(Words(content)[k])
    ensures ParseStripped(content) == Ok(Command(Words(content)[0], Words(content), []))
  {
    var t := LStripSpace(content);
    WordsLStrip(content);
    StrippedPlain(content);
    ParsePlainWords(t);
  }

  lemma StrippedPlain(content: string)
    requires NoQuote(content) && |Words(content)| > 1
    requires forall k :: 0 <= k < |Words(content)| ==> !Dashed(Words(content)[k])
    ensures PlainLine(LStripSpace(content))
  {
    var t := LStripSpace(content);
    WordsLStrip(content);
    forall i | 0 <= i < |t| ensures t[i] != '"' {
      assert t[i] == content[|content| - |t| + i];
    }
  }

  /** A word of text without quotes does not start with one. */
  lemma WordHasNoQuote(s: string, k: nat)
    requires NoQuote(s) && k < |Words(s)|
    ensures Words(s)[k] == [] || Words(s)[k][0] != '"'
  {
    WordsNoQuote(s);
  }

  /** None of `ws` holds a quote. */
  predicate AllNoQuote(ws: seq<string>) {
    forall k :: 0 <= k < |ws| ==> NoQuote(ws[k])
  }

  lemma ConsNoQuote(w: string, ws: seq<string>)
    requires NoQuote(w) && AllNoQuote(ws)
    ensures AllNoQuote([w] + ws)
  {
    forall k | 0 <= k < |[w] + ws| ensures NoQuote(([w] + ws)[k]) {
      if k > 0 {
        assert ([w] + ws)[k] == ws[k - 1];
      }
    }
  }

  lemma TakeWordNoQuote(t: string)
    requires NoQuote(t)
    ensures NoQuote(TakeWord(t))
  {
    var w := TakeWord(t);
    forall i | 0 <= i < |w| ensures w[i] != '"' {
      assert w[i] == t[i];
    }
  }

  /** The words of text without quotes hold no quote. */
  lemma {:induction false} WordsNoQuote(s: string)
    requires NoQuote(s)
    ensures AllNoQuote(Words(s))
    decreases |s|
  {
    var t := LStripSpace(s);
    SuffixNoQuote(s, t);
    if t != [] {
      var w := TakeWord(t);
      var u := t[|w|..];
      TakeWordNoQuote(t);
      SuffixNoQuote(t, u);
      WordsNoQuote(u);
      assert Words(s) == [w] + Words(u);
      ConsNoQuote(w, Words(u));
    }
  }
}
