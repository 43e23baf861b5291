/**
 * The command-line parser every bot module inherits
 * (modules/base/Base.py): `_parse_command_content` splits the text after a
 * command into a subcommand, positional arguments and options.
 */
module Commands {
  import opened Wrappers
  import opened Errors
  import opened PyStrings

  /** An option: its name and the value that followed it, if any. */
  datatype Opt = Opt(name: string, value: Option<string>)

  /** The triple `(sub_command, args_, kwargs)`. */
  datatype Command = Command(sub: string, args: seq<string>, opts: seq<Opt>)

  /** What the scan of the tokens adds to `args_` and to `kwargs`. */
  datatype Scanned = Scanned(args: seq<string>, opts: seq<Opt>)

  /** `t.startswith('"')`. */
  predicate Quoted(t: string) {
    |t| > 0 && t[0] == '"'
  }

  /** `t.startswith("--")`. */
  predicate Long(t: string) {
    |t| > 1 && t[0] == '-' && t[1] == '-'
  }

  /** `t.startswith("-")`. */
  predicate Dashed(t: string) {
    |t| > 0 && t[0] == '-'
  }

  lemma PrefixTests(t: string)
    ensures Quoted(t) <==> StartsWith(t, "\"")
    ensures Long(t) <==> StartsWith(t, "--")
    ensures Dashed(t) <==> StartsWith(t, "-")
  {
    if |t| > 0 {
      assert t[..1] == [t[0]];
    }
    if |t| > 1 {
      assert t[..2] == [t[0], t[1]];
    }
  }

  predicate NonEmpty(ts: seq<string>) {
    forall k :: 0 <= k < |ts| ==> ts[k] != []
  }

  /** Lines 133-135: the text after the subcommand, every quote doubled.
      `lstrip(sub)` drops leading characters that occur in `sub`. */
  function Rest(content: string, sub: string): string {
    Replace(LStripSpace(LStripChars(content, sub)), "\"", "\"\"")
  }

  /** Line 137 with its flattening in line 139: each chunk between ` "`
      separators, split again at `" `. */
  function Pieces(chunks: seq<string>): seq<string> {
    if chunks == [] then [] else SplitSep(chunks[0], "\" ") + Pieces(chunks[1..])
  }

  /** The tokens of one piece: a piece starting with a quote is kept whole,
      any other is split at whitespace. */
  function PieceTokens(piece: string): (r: seq<string>)
    requires piece != []
    ensures NonEmpty(r)
  {
    if piece[0] != '"' then WordsAreWords(piece); Words(piece) else [piece]
  }

  /** Lines 139-141: the tokens of all pieces, in order. `item[0]` raises
      `IndexError` on an empty piece. */
  function TokensOf(pieces: seq<string>): (r: Result<seq<string>, Error>)
    ensures r.Ok? ==> NonEmpty(r.value)
    ensures r.Err? ==> r.error == IndexError
    ensures r.Err? <==> exists k :: 0 <= k < |pieces| && pieces[k] == []
  {
    if pieces == [] then Ok([])
    else if pieces[0] == [] then Err(IndexError)
    else match TokensOf(pieces[1..])
      case Err(e) =>
        assert exists k :: 0 <= k < |pieces[1..]| && pieces[1..][k] == [];
        var k :| 0 <= k < |pieces[1..]| && pieces[1..][k] == [];
        assert pieces[k + 1] == [];
        Err(e)
      case Ok(rest) =>
        assert forall k :: 1 <= k < |pieces| ==> pieces[k] == pieces[1..][k - 1];
        Ok(PieceTokens(pieces[0]) + rest)
  }

  /** The token list the loop of lines 144-169 walks over. */
  function Tokens(content: string, sub: string): Result<seq<string>, Error> {
    TokensOf(Pieces(SplitSep(Rest(content, sub), " \"")))
  }

  function Positional(a: string, s: Scanned): Scanned {
    Scanned([a] + s.args, s.opts)
  }

  function WithOpt(o: Opt, s: Scanned): Scanned {
    Scanned(s.args, [o] + s.opts)
  }

  /** Line 166: one option without a value per character of a flag cluster. */
  function Flags(cs: string): (r: seq<Opt>)
    ensures |r| == |cs|
    ensures forall k :: 0 <= k < |cs| ==> r[k] == Opt([cs[k]], None)
  {
    if cs == [] then [] else [Opt([cs[0]], None)] + Flags(cs[1..])
  }

  /** The option named by `a`, with the value `v` (lines 149-164). */
  function OptOf(a: string, v: Option<string>): Opt {
    Opt(LStripChars(a, "-"), if v.Some? then Some(StripChars(v.value, "\"")) else None)
  }

  /** What the loop of lines 144-169 adds for the tokens `ts` from
      index `i` on:
      - a token starting with a quote loses its first and last character;
      - `--name` takes the next token as its value unless it starts with
        `-`, and has none when it is the last token (the loop stops);
      - a two-character `-x` pairs the same way, but as the last token it
        stops the loop and adds nothing;
      - a longer `-xyz` gives one valueless option per character;
      - any other token is a positional argument. */
  function ScanAt(ts: seq<string>, i: nat): Scanned
    requires i <= |ts|
    decreases |ts| - i, 1
  {
    if i == |ts| then Scanned([], [])
    else if Quoted(ts[i]) then Positional(Inner(ts[i]), ScanAt(ts, i + 1))
    else if Long(ts[i]) then ScanLongAt(ts, i)
    else if Dashed(ts[i]) then ScanShortAt(ts, i)
    else Positional(ts[i], ScanAt(ts, i + 1))
  }

  /** Lines 147-155: a `--name` token at index `i`. */
  function ScanLongAt(ts: seq<string>, i: nat): Scanned
    requires i < |ts| && Long(ts[i])
    decreases |ts| - i, 0
  {
    if i + 1 == |ts| then Scanned([], [OptOf(ts[i], None)])
    else if !Dashed(ts[i + 1]) then WithOpt(OptOf(ts[i], Some(ts[i + 1])), ScanAt(ts, i + 2))
    else WithOpt(OptOf(ts[i], None), ScanAt(ts, i + 1))
  }

  /** Lines 156-166: a `-x` or `-xyz` token at index `i`. */
  function ScanShortAt(ts: seq<string>, i: nat): Scanned
    requires i < |ts| && Dashed(ts[i])
    decreases |ts| - i, 0
  {
    if |ts[i]| == 2 then
      if i + 1 == |ts| then Scanned([], [])
      else if !Dashed(ts[i + 1]) then WithOpt(OptOf(ts[i], Some(ts[i + 1])), ScanAt(ts, i + 2))
      else WithOpt(OptOf(ts[i], None), ScanAt(ts, i + 1))
    else Scanned(ScanAt(ts, i + 1).args, Flags(ts[i][1..]) + ScanAt(ts, i + 1).opts)
  }

  /** The scan of all of `ts`. */
  function Scan(ts: seq<string>): Scanned {
    ScanAt(ts, 0)
  }

  /** `_parse_command_content(content)`. Blank content gives an empty
      subcommand; a single word is the subcommand and the only argument;
      otherwise the tokens of the rest are scanned. */
  function ParseCommand(content: string): Result<Command, Error> {
    var words := Words(content);
    if words == [] then Ok(Command("", [], []))
    else if |words| == 1 then Ok(Command(words[0], [words[0]], []))
    else match Tokens(content, words[0])
      case Err(e) => Err(e)
      case Ok(ts) => Ok(Command(words[0], [words[0]] + Scan(ts).args, Scan(ts).opts))
  }

  /** The loop of lines 143-169 over the tokens: what it appends to
      `args_` and to `kwargs`. */
  method ScanTokens(args: seq<string>) returns (r: Scanned)
    requires NonEmpty(args)
    ensures r == Scan(args)
  {
    var args_: seq<string> := [];
    var kwargs: seq<Opt> := [];
    var i := 0;
    while i < |args|
      invariant i <= |args|
      invariant args_ + ScanAt(args, i).args == Scan(args).args
      invariant kwargs + ScanAt(args, i).opts == Scan(args).opts
      decreases |args| - i
    {
      if Quoted(args[i]) {
        Shift(args_, [Inner(args[i])], ScanAt(args, i + 1).args);
        args_ := args_ + [Inner(args[i])];
      } else if Long(args[i]) {
        if i + 1 >= |args| {
          kwargs := kwargs + [OptOf(args[i], None)];
          break;
        }
        if args[i + 1][0] != '-' {
          Shift(kwargs, [OptOf(args[i], Some(args[i + 1]))], ScanAt(args, i + 2).opts);
          kwargs := kwargs + [OptOf(args[i], Some(args[i + 1]))];
          i := i + 1;
        } else {
          Shift(kwargs, [OptOf(args[i], None)], ScanAt(args, i + 1).opts);
          kwargs := kwargs + [OptOf(args[i], None)];
        }
      } else if Dashed(args[i]) {
        if |args[i]| == 2 {
          if i + 1 >= |args| {
            break;
          }
          if args[i + 1][0] != '-' {
            Shift(kwargs, [OptOf(args[i], Some(args[i + 1]))], ScanAt(args, i + 2).opts);
            kwargs := kwargs + [OptOf(args[i], Some(args[i + 1]))];
            i := i + 1;
          } else {
            Shift(kwargs, [OptOf(args[i], None)], ScanAt(args, i + 1).opts);
            kwargs := kwargs + [OptOf(args[i], None)];
          }
        } else {
          Shift(kwargs, Flags(args[i][1..]), ScanAt(args, i + 1).opts);
          kwargs := kwargs + Flags(args[i][1..]);
        }
      } else {
        Shift(args_, [args[i]], ScanAt(args, i + 1).args);
        args_ := args_ + [args[i]];
      }
      i := i + 1;
    }
    return Scanned(args_, kwargs);
  }

  lemma Shift<T>(acc: seq<T>, step: seq<T>, rest: seq<T>)
    ensures acc + (step + rest) == (acc + step) + rest
  {
  }

  /** The scan from index `i` is the scan of the suffix from `i`. */
  lemma {:induction false} ScanAtSuffix(ts: seq<string>, i: nat)
    requires i <= |ts|
    ensures ScanAt(ts, i) == Scan(ts[i..])
    decreases i
  {
    if i > 0 {
      ScanAtDrop(ts, i);
      ScanAtSuffix(ts[1..], i - 1);
      assert ts[1..][i - 1..] == ts[i..];
    }
  }

  /** Dropping the first token shifts the scan by one index. */
  lemma {:induction false} ScanAtDrop(ts: seq<string>, i: nat)
    requires 1 <= i <= |ts|
    ensures ScanAt(ts, i) == ScanAt(ts[1..], i - 1)
    decreases |ts| - i
  {
    var us := ts[1..];
    if i < |ts| {
      assert ts[i] == us[i - 1];
      if i + 1 <= |ts| {
        ScanAtDrop(ts, i + 1);
      }
      if i + 2 <= |ts| {
        assert ts[i + 1] == us[i];
        ScanAtDrop(ts, i + 2);
      }
    }
  }

  // One lemma per branch of the loop body: what the scan adds for the
  // first token and where it goes on.

  /** Lines 145-146: a quoted group loses its first and last character. */
  lemma ScanQuoted(ts: seq<string>)
    requires ts != [] && Quoted(ts[0])
    ensures Scan(ts) == Scanned([Inner(ts[0])] + Scan(ts[1..]).args, Scan(ts[1..]).opts)
  {
    ScanAtSuffix(ts, 1);
  }

  /** Lines 148-150: `--name` as the last token has no value and ends the scan. */
  lemma ScanLongLast(ts: seq<string>)
    requires |ts| == 1 && Long(ts[0])
    ensures Scan(ts) == Scanned([], [OptOf(ts[0], None)])
  {
    assert Scan(ts) == ScanLongAt(ts, 0);
  }

  /** Lines 151-153: `--name v` takes `v` as its value when `v` does not
      start with `-`. */
  lemma ScanLongValue(ts: seq<string>)
    requires |ts| >= 2 && Long(ts[0]) && !Dashed(ts[1])
    ensures Scan(ts) == Scanned(Scan(ts[2..]).args, [OptOf(ts[0], Some(ts[1]))] + Scan(ts[2..]).opts)
  {
    assert Scan(ts) == ScanLongAt(ts, 0);
    ScanAtSuffix(ts, 2);
  }

  /** Lines 154-155: `--name` before another option has no value. */
  lemma ScanLongAlone(ts: seq<string>)
    requires |ts| >= 2 && Long(ts[0]) && Dashed(ts[1])
    ensures Scan(ts) == Scanned(Scan(ts[1..]).args, [OptOf(ts[0], None)] + Scan(ts[1..]).opts)
  {
    assert Scan(ts) == ScanLongAt(ts, 0);
    ScanAtSuffix(ts, 1);
  }

  /** Lines 157-159: a two-character `-x` as the last token ends the scan
      and adds nothing. */
  lemma ScanShortLast(ts: seq<string>)
    requires |ts| == 1 && Dashed(ts[0]) && !Long(ts[0]) && |ts[0]| == 2
    ensures Scan(ts) == Scanned([], [])
  {
    assert Scan(ts) == ScanShortAt(ts, 0);
  }

  /** Lines 160-162: `-x v` pairs as a long option does. */
  lemma ScanShortValue(ts: seq<string>)
    requires |ts| >= 2 && Dashed(ts[0]) && !Long(ts[0]) && |ts[0]| == 2 && !Dashed(ts[1])
    ensures Scan(ts) == Scanned(Scan(ts[2..]).args, [OptOf(ts[0], Some(ts[1]))] + Scan(ts[2..]).opts)
  {
    assert Scan(ts) == ScanShortAt(ts, 0);
    ScanAtSuffix(ts, 2);
  }

  /** Lines 163-164: `-x` before another option has no value. */
  lemma ScanShortAlone(ts: seq<string>)
    requires |ts| >= 2 && Dashed(ts[0]) && !Long(ts[0]) && |ts[0]| == 2 && Dashed(ts[1])
    ensures Scan(ts) == Scanned(Scan(ts[1..]).args, [OptOf(ts[0], None)] + Scan(ts[1..]).opts)
  {
    assert Scan(ts) == ScanShortAt(ts, 0);
    ScanAtSuffix(ts, 1);
  }

  /** Lines 165-166: a longer dash token is a cluster of valueless flags. */
  lemma ScanCluster(ts: seq<string>)
    requires ts != [] && Dashed(ts[0]) && !Long(ts[0]) && |ts[0]| != 2
    ensures Scan(ts) == Scanned(Scan(ts[1..]).args, Flags(ts[0][1..]) + Scan(ts[1..]).opts)
  {
    assert Scan(ts) == ScanShortAt(ts, 0);
    ScanAtSuffix(ts, 1);
  }

  /** Lines 167-168: any other token is a positional argument. */
  lemma ScanPlain(ts: seq<string>)
    requires ts != [] && !Quoted(ts[0]) && !Dashed(ts[0])
    ensures Scan(ts) == Scanned([ts[0]] + Scan(ts[1..]).args, Scan(ts[1..]).opts)
  {
    assert !Long(ts[0]);
    ScanAtSuffix(ts, 1);
  }

  /** `_parse_command_content`. */
  method ParseCommandContent(content: string) returns (r: Result<Command, Error>)
    ensures r == ParseCommand(content)
  {
    var words := Words(content);
    if |words| == 0 {
      return Ok(Command("", [], []));
    }
    var sub := words[0];
    var args_ := [sub];
    var kwargs: seq<Opt> := [];
    if |words| > 1 {
      var tokens := Tokens(content, sub);
      if tokens.Err? {
        return Err(tokens.error);
      }
      var scanned := ScanTokens(tokens.value);
      args_ := args_ + scanned.args;
      kwargs := scanned.opts;
    }
    return Ok(Command(sub, args_, kwargs));
  }
}
