// The IRC backend's parse of a PRIVMSG line into a message, its
// channel and its author. A line has the framing of section 2.3.1 of
// RFC 1459, `:prefix COMMAND target :text`, with the PRIVMSG command of
// section 4.4.1.

module Irc {
  import opened Wrappers
  import opened Errors
  import opened Utf8

  const Space: Byte := 0x20
  const Bang: Byte := 0x21
  const Colon: Byte := 0x3A

  // ---------------------------------------------------------------------
  // `bytes.split(sep)` for a one-byte separator, and its inverse.

  /** The pieces of `d` between the occurrences of `c`, in order. */
  function Split(d: Bytes, c: Byte): (r: seq<Bytes>)
    ensures |r| >= 1
  {
    if d == [] then [[]]
    else
      var rest := Split(d[1..], c);
      if d[0] == c then [[]] + rest else [[d[0]] + rest[0]] + rest[1..]
  }

  /** `sep.join(pieces)`. */
  function Join(ps: seq<Bytes>, c: Byte): Bytes
    requires |ps| >= 1
  {
    if |ps| == 1 then ps[0] else ps[0] + [c] + Join(ps[1..], c)
  }

  predicate Free(b: Bytes, c: Byte) {
    c !in b
  }

  /** Joining the pieces gives the bytes back. */
  lemma {:induction false} JoinSplit(d: Bytes, c: Byte)
    ensures Join(Split(d, c), c) == d
  {
    if d != [] {
      var rest := Split(d[1..], c);
      JoinSplit(d[1..], c);
      if d[0] == c {
        assert Split(d, c)[1..] == rest;
      } else if |rest| == 1 {
      } else {
        var r := Split(d, c);
        assert r[1..] == rest[1..];
        assert Join(rest, c) == rest[0] + [c] + Join(rest[1..], c);
      }
      assert [d[0]] + d[1..] == d;
    }
  }

  /** No piece holds the separator. */
  lemma {:induction false} SplitFree(d: Bytes, c: Byte)
    ensures forall k :: 0 <= k < |Split(d, c)| ==> Free(Split(d, c)[k], c)
  {
    if d != [] {
      SplitFree(d[1..], c);
    }
  }

  /** One step of the split, for a byte in front. */
  lemma SplitCons(b: Byte, d: Bytes, c: Byte)
    ensures b == c ==> Split([b] + d, c) == [[]] + Split(d, c)
    ensures b != c ==> Split([b] + d, c) == [[b] + Split(d, c)[0]] + Split(d, c)[1..]
  {
    assert ([b] + d)[1..] == d;
  }

  lemma {:induction false} SplitPrefix(a: Bytes, tail: Bytes, c: Byte)
    requires Free(a, c)
    ensures Split(a + tail, c) == [a + Split(tail, c)[0]] + Split(tail, c)[1..]
  {
    var st := Split(tail, c);
    if a == [] {
      assert a + tail == tail;
      assert a + st[0] == st[0];
      assert st == [st[0]] + st[1..];
    } else {
      var a0, a1 := a[0], a[1..];
      assert a == [a0] + a1;
      assert a + tail == [a0] + (a1 + tail);
      SplitPrefix(a1, tail, c);
      SplitCons(a0, a1 + tail, c);
      assert [a0] + (a1 + st[0]) == a + st[0];
    }
  }

  /** Bytes free of the separator split at its first occurrence. */
  lemma SplitAt(a: Bytes, c: Byte, rest: Bytes)
    requires Free(a, c)
    ensures Split(a + ([c] + rest), c) == [a] + Split(rest, c)
  {
    SplitPrefix(a, [c] + rest, c);
    SplitCons(c, rest, c);
    var s := Split([c] + rest, c);
    assert s[0] == [] && s[1..] == Split(rest, c);
    assert a + [] == a;
  }

  /** Bytes free of the separator are one piece. */
  lemma SplitWhole(a: Bytes, c: Byte)
    requires Free(a, c)
    ensures Split(a, c) == [a]
  {
    SplitPrefix(a, [], c);
    assert a + [] == a;
  }

  /** What follows the last of several separators is what follows it
      after any one of them. */
  lemma {:induction false} LastSplitAppend(x: Bytes, y: Bytes, c: Byte)
    ensures |Split(x + ([c] + y), c)| >= 2
    ensures Last(Split(x + ([c] + y), c)) == Last(Split(y, c))
  {
    if x == [] {
      assert x + ([c] + y) == [c] + y;
      SplitCons(c, y, c);
    } else {
      var x0, x1 := x[0], x[1..];
      assert x == [x0] + x1;
      assert x + ([c] + y) == [x0] + (x1 + ([c] + y));
      LastSplitAppend(x1, y, c);
      SplitCons(x0, x1 + ([c] + y), c);
    }
  }

  /** Splitting pieces joined at a separator they do not hold gives the
      pieces back. */
  lemma {:induction false} SplitJoin(ps: seq<Bytes>, c: Byte)
    requires |ps| >= 1 && forall k :: 0 <= k < |ps| ==> Free(ps[k], c)
    ensures Split(Join(ps, c), c) == ps
  {
    if |ps| == 1 {
      SplitWhole(ps[0], c);
    } else {
      SplitJoin(ps[1..], c);
      assert Join(ps, c) == ps[0] + ([c] + Join(ps[1..], c));
      SplitAt(ps[0], c, Join(ps[1..], c));
      assert [ps[0]] + ps[1..] == ps;
    }
  }

  function Last(ps: seq<Bytes>): Bytes
    requires |ps| >= 1
  {
    ps[|ps| - 1]
  }

  lemma {:induction false} JoinLast(ps: seq<Bytes>, c: Byte)
    requires |ps| >= 2
    ensures Join(ps, c) == Join(ps[..|ps| - 1], c) + [c] + Last(ps)
  {
    if |ps| > 2 {
      JoinLast(ps[1..], c);
      assert ps[1..][..|ps| - 2] == ps[..|ps| - 1][1..];
    }
  }

  /** `b[1:]`: empty for empty bytes. */
  function Drop1(b: Bytes): (r: Bytes)
    ensures b != [] ==> [b[0]] + r == b
    ensures b == [] ==> r == []
  {
    if b == [] then [] else b[1..]
  }

  // ---------------------------------------------------------------------
  // What the lines of `from_irc` compute.

  /** `data.split(b":")[-1]`. */
  function ContentBytes(data: Bytes): Bytes {
    Last(Split(data, Colon))
  }

  /** `data.split(b":")[-1].decode()`. */
  function ContentText(data: Bytes): Result<string, Error> {
    Decode(ContentBytes(data))
  }

  /** `data.split(b" ")[2]`, or the `IndexError` of a short line. */
  function Target(data: Bytes): Result<Bytes, Error> {
    var fields := Split(data, Space);
    if |fields| < 3 then Err(IndexError) else Ok(fields[2])
  }

  /** `data.split(b" ")[0][1:].split(b"!")[0]`: the sender's nick. */
  function SenderNick(data: Bytes): Bytes {
    Split(Drop1(Split(data, Space)[0]), Bang)[0]
  }

  /** The bytes given to `from_irc_id`: the target, unless it decodes to
      the bot's own nick, when the reply goes to the sender. */
  function ChannelBytes(data: Bytes, nick: string): Result<Bytes, Error> {
    match Target(data)
    case Err(e) => Err(e)
    case Ok(t) =>
      match Decode(t)
      case Err(e) => Err(e)
      case Ok(s) => if s == nick then Ok(SenderNick(data)) else Ok(t)
  }

  /** How `from_irc` ends: the first of its steps to raise, or normally. */
  function FromIrcOutcome(data: Bytes, nick: string): Outcome<Error> {
    if ContentText(data).Err? then Fail(UnicodeDecodeError)
    else match ChannelBytes(data, nick)
      case Err(e) => Fail(e)
      case Ok(ch) => if Decode(ch).Err? then Fail(UnicodeDecodeError) else Pass
  }

  function Decoded(b: Bytes): Option<string> {
    match Decode(b)
    case Ok(s) => Some(s)
    case Err(_) => None
  }

  // ---------------------------------------------------------------------
  // The objects.

  class User {
    constructor () {
    }
  }

  class Channel {
    /** `id`, unset until `from_irc_id` succeeds. */
    var id: Option<string>

    constructor ()
      ensures id == None
    {
      id := None;
    }

    method FromIrcId(b: Bytes) returns (r: Outcome<Error>)
      modifies this
      ensures Decode(b).Ok? ==> r == Pass && id == Some(Decode(b).value)
      ensures Decode(b).Err? ==> r == Fail(UnicodeDecodeError) && id == old(id)
    {
      var s := Decode(b);
      if s.Err? {
        return Fail(UnicodeDecodeError);
      }
      id := Some(s.value);
      r := Pass;
    }
  }

  class Message {
    /** The nick of the client the message came through. */
    const nick: string
    var content: Option<string>
    var channel: Channel?
    var author: User?

    constructor (nick: string)
      ensures this.nick == nick
      ensures content == None && channel == null && author == null
    {
      this.nick := nick;
      content := None;
      channel := null;
      author := null;
    }

    /** Fill the message from one raw line, field by field in the source's
        order: what was set before a step raised stays set. */
    method FromIrc(data: Bytes) returns (r: Outcome<Error>)
      modifies this
      ensures r == FromIrcOutcome(data, nick)
      ensures content == (if ContentText(data).Ok? then Some(ContentText(data).value) else old(content))
      ensures ContentText(data).Ok? && ChannelBytes(data, nick).Ok? ==>
                channel != null && fresh(channel) && channel.id == Decoded(ChannelBytes(data, nick).value)
      ensures !(ContentText(data).Ok? && ChannelBytes(data, nick).Ok?) ==> channel == old(channel)
      ensures r.Pass? ==> author != null && fresh(author)
      ensures r.Fail? ==> author == old(author)
    {
      var text := Decode(Last(Split(data, Colon)));
      if text.Err? {
        return Fail(UnicodeDecodeError);
      }
      content := Some(text.value);
      var fields := Split(data, Space);
      if |fields| < 3 {
        return Fail(IndexError);
      }
      var ch := fields[2];
      var target := Decode(ch);
      if target.Err? {
        return Fail(UnicodeDecodeError);
      }
      if target.value == nick {
        ch := Split(Drop1(fields[0]), Bang)[0];
      }
      var c := new Channel();
      channel := c;
      r := c.FromIrcId(ch);
      if r.Fail? {
        return;
      }
      author := new User();
    }
  }

  // ---------------------------------------------------------------------
  // Properties of the parse.

  /** The content is what follows the last colon of the line, or the whole
      line when it has none; it never holds a colon itself. */
  lemma ContentAfterLastColon(data: Bytes)
    ensures Free(ContentBytes(data), Colon)
    ensures Free(data, Colon) ==> ContentBytes(data) == data
    ensures !Free(data, Colon) ==>
              var m := ContentBytes(data);
              |m| < |data| && data[|data| - |m| - 1] == Colon && data[|data| - |m|..] == m
  {
    var ps := Split(data, Colon);
    SplitFree(data, Colon);
    JoinSplit(data, Colon);
    assert Free(Last(ps), Colon);
    if Free(data, Colon) {
      SplitWhole(data, Colon);
    } else {
      assert |ps| != 1;
      JoinLast(ps, Colon);
      var m := Last(ps);
      var p := Join(ps[..|ps| - 1], Colon);
      assert data == (p + [Colon]) + m;
    }
  }

  /** A line in the `:prefix COMMAND target :text` framing. */
  function Line(prefix: Bytes, command: Bytes, target: Bytes, text: Bytes): Bytes {
    [Colon] + (prefix + ([Space] + (command + ([Space] + (target + ([Space] + ([Colon] + text)))))))
  }

  /** The target is the third field. */
  lemma LineTarget(prefix: Bytes, command: Bytes, target: Bytes, text: Bytes)
    requires Free(prefix, Space) && Free(command, Space) && Free(target, Space)
    ensures Target(Line(prefix, command, target, text)) == Ok(target)
    ensures Split(Line(prefix, command, target, text), Space)[0] == [Colon] + prefix
  {
    var rest := [Colon] + text;
    var t := target + ([Space] + rest);
    var u := command + ([Space] + t);
    assert Line(prefix, command, target, text) == ([Colon] + prefix) + ([Space] + u);
    SplitAt([Colon] + prefix, Space, u);
    SplitAt(command, Space, t);
    SplitAt(target, Space, rest);
  }

  /** The part of a line between its two framing colons. */
  function Head(prefix: Bytes, command: Bytes, target: Bytes): Bytes {
    prefix + ([Space] + (command + ([Space] + (target + [Space]))))
  }

  lemma LineHead(prefix: Bytes, command: Bytes, target: Bytes, text: Bytes)
    ensures Line(prefix, command, target, text) == [] + ([Colon] + (Head(prefix, command, target) + ([Colon] + text)))
  {
    var rest := [Colon] + text;
    var h3 := target + [Space];
    var h2 := command + ([Space] + h3);
    assert target + ([Space] + rest) == h3 + rest;
    assert command + ([Space] + (h3 + rest)) == h2 + rest;
    assert prefix + ([Space] + (h2 + rest)) == Head(prefix, command, target) + rest;
  }

  lemma HeadFree(prefix: Bytes, command: Bytes, target: Bytes)
    requires Free(prefix, Colon) && Free(command, Colon) && Free(target, Colon)
    ensures Free(Head(prefix, command, target), Colon)
  {
  }

  /** The content is the text after the second colon, as long as the
      prefix, command and target hold no colon. */
  lemma LineContent(prefix: Bytes, command: Bytes, target: Bytes, text: Bytes)
    requires Free(prefix, Colon) && Free(command, Colon) && Free(target, Colon)
    ensures ContentBytes(Line(prefix, command, target, text)) == Last(Split(text, Colon))
    ensures Free(text, Colon) ==> ContentBytes(Line(prefix, command, target, text)) == text
  {
    var head := Head(prefix, command, target);
    LineHead(prefix, command, target, text);
    HeadFree(prefix, command, target);
    LastSplitAppend([], head + ([Colon] + text), Colon);
    LastSplitAppend(head, text, Colon);
    if Free(text, Colon) {
      SplitWhole(text, Colon);
    }
  }

  /** A message addressed to the bot's nick is answered in a query with
      the sender: the prefix up to its first `!`. */
  lemma PrivateQuery(prefix: Bytes, command: Bytes, target: Bytes, text: Bytes, nick: string)
    requires Free(prefix, Space) && Free(command, Space) && Free(target, Space)
    requires Decode(target) == Ok(nick)
    ensures ChannelBytes(Line(prefix, command, target, text), nick) == Ok(Split(prefix, Bang)[0])
  {
    LineTarget(prefix, command, target, text);
  }

  /** Any other target is the channel. */
  lemma ChannelTarget(prefix: Bytes, command: Bytes, target: Bytes, text: Bytes, nick: string)
    requires Free(prefix, Space) && Free(command, Space) && Free(target, Space)
    requires Decode(target).Ok? && Decode(target).value != nick
    ensures ChannelBytes(Line(prefix, command, target, text), nick) == Ok(target)
  {
    LineTarget(prefix, command, target, text);
  }

  /** A line with fewer than two spaces raises `IndexError` once the
      content is set. */
  lemma ShortLine(data: Bytes, nick: string)
    requires ContentText(data).Ok?
    requires |Split(data, Space)| < 3
    ensures FromIrcOutcome(data, nick) == Fail(IndexError)
  {
  }

  /** A colon inside the text loses everything before it. */
  lemma ColonInText(prefix: Bytes, command: Bytes, target: Bytes, before: Bytes, after: Bytes)
    requires Free(prefix, Colon) && Free(command, Colon) && Free(target, Colon)
    requires Free(after, Colon)
    ensures ContentBytes(Line(prefix, command, target, before + ([Colon] + after))) == after
  {
    LineContent(prefix, command, target, before + ([Colon] + after));
    LastSplitAppend(before, after, Colon);
    SplitWhole(after, Colon);
  }

  /** The content as evidently intended: everything after the colon that
      starts the trailing parameter, the second colon of a prefixed line
      (`data.split(b":", 2)[2]`), or the last piece when there is none. */
  function TrailingBytes(data: Bytes): Bytes {
    var ps := Split(data, Colon);
    if |ps| >= 3 then Join(ps[2..], Colon) else Last(ps)
  }

  /** With that reading the content is the whole text, colons and all. */
  lemma TrailingIsText(prefix: Bytes, command: Bytes, target: Bytes, text: Bytes)
    requires Free(prefix, Colon) && Free(command, Colon) && Free(target, Colon)
    ensures TrailingBytes(Line(prefix, command, target, text)) == text
  {
    var head := Head(prefix, command, target);
    LineHead(prefix, command, target, text);
    HeadFree(prefix, command, target);
    SplitAt([], Colon, head + ([Colon] + text));
    SplitAt(head, Colon, text);
    var ps := Split(Line(prefix, command, target, text), Colon);
    assert ps == [[]] + ([head] + Split(text, Colon));
    assert ps[2..] == Split(text, Colon);
    JoinSplit(text, Colon);
  }

  // ---------------------------------------------------------------------
  // The sample PRIVMSG line that src/backends/IRC/message.py:8 shows,
  // byte by byte.

  /** `Fomys!~fomys@192.168.0.14` */
  const SamplePrefix: Bytes := [
    0x46, 0x6F, 0x6D, 0x79, 0x73, 0x21, 0x7E, 0x66, 0x6F, 0x6D, 0x79, 0x73, 0x40,
    0x31, 0x39, 0x32, 0x2E, 0x31, 0x36, 0x38, 0x2E, 0x30, 0x2E, 0x31, 0x34]
  /** `PRIVMSG` */
  const Privmsg: Bytes := [0x50, 0x52, 0x49, 0x56, 0x4D, 0x53, 0x47]
  /** `#general` */
  const General: Bytes := [0x23, 0x67, 0x65, 0x6E, 0x65, 0x72, 0x61, 0x6C]
  /** `Pouet` */
  const Pouet: Bytes := [0x50, 0x6F, 0x75, 0x65, 0x74]

  lemma SampleLine(nick: string)
    requires nick != "#general"
    ensures ContentText(Line(SamplePrefix, Privmsg, General, Pouet)) == Ok("Pouet")
    ensures ChannelBytes(Line(SamplePrefix, Privmsg, General, Pouet), nick) == Ok(General)
    ensures Decoded(General) == Some("#general")
  {
    SampleFree();
    SampleText();
    LineContent(SamplePrefix, Privmsg, General, Pouet);
    ChannelTarget(SamplePrefix, Privmsg, General, Pouet, nick);
  }

  lemma SampleFree()
    ensures Free(SamplePrefix, Space) && Free(Privmsg, Space) && Free(General, Space)
    ensures Free(SamplePrefix, Colon) && Free(Privmsg, Colon) && Free(General, Colon) && Free(Pouet, Colon)
  {
  }

  lemma SampleText()
    ensures Decode(Pouet) == Ok("Pouet") && Decode(General) == Ok("#general")
  {
    SamplePouet();
    SampleGeneral();
  }

  lemma SamplePouet()
    ensures Decode(Pouet) == Ok("Pouet")
  {
    DecodeAscii(Pouet);
    assert AsciiChars(Pouet) == "Pouet";
  }

  lemma SampleGeneral()
    ensures Decode(General) == Ok("#general")
  {
    GeneralAscii();
    DecodeAscii(General);
    GeneralChars();
  }

  lemma GeneralAscii()
    ensures IsAscii(General)
  {
  }

  lemma GeneralChars()
    requires IsAscii(General)
    ensures AsciiChars(General) == "#general"
  {
  }
}
