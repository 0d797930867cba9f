/**
  `graphStructureKey` of brain-landing/lib/force-layout.ts: node ids and links written out by
  `JSON.stringify`. Strings are sequences of UTF-16 code units, as they are at run time.
 */
module StructureKey {
  import opened Collections

  type Unit = u: int | 0 <= u < 0x1_0000 witness 0

  type Text = seq<Unit>

  const QUOTE: Unit := 0x22
  const BACKSLASH: Unit := 0x5c
  const OPEN: Unit := 0x5b
  const CLOSE: Unit := 0x5d
  const COMMA: Unit := 0x2c
  const LETTER_U: Unit := 0x75

  // ---- one code unit ------------------------------------------------------------------------

  /** The two-character escapes: backspace, tab, line feed, form feed, return, quote, backslash. */
  function ShortEscape(u: Unit): Option<Unit> {
    match u
    case 0x08 => Some(0x62)
    case 0x09 => Some(0x74)
    case 0x0a => Some(0x6e)
    case 0x0c => Some(0x66)
    case 0x0d => Some(0x72)
    case 0x22 => Some(0x22)
    case 0x5c => Some(0x5c)
    case _ => None
  }

  function ShortMeaning(letter: Unit): Option<Unit> {
    match letter
    case 0x62 => Some(0x08)
    case 0x74 => Some(0x09)
    case 0x6e => Some(0x0a)
    case 0x66 => Some(0x0c)
    case 0x72 => Some(0x0d)
    case 0x22 => Some(0x22)
    case 0x5c => Some(0x5c)
    case 0x2f => Some(0x2f)
    case _ => None
  }

  function HexDigit(d: Unit): Unit
    requires d < 16
  {
    if d < 10 then 0x30 + d else 0x57 + d
  }

  function HexValue(c: Unit): Option<Unit> {
    if 0x30 <= c <= 0x39 then Some(c - 0x30)
    else if 0x61 <= c <= 0x66 then Some(c - 0x57)
    else if 0x41 <= c <= 0x46 then Some(c - 0x37)
    else None
  }

  /** `\uXXXX`, in lower case. */
  function LongEscape(u: Unit): Text {
    [BACKSLASH, LETTER_U, HexDigit(u / 4096), HexDigit(u / 256 % 16), HexDigit(u / 16 % 16), HexDigit(u % 16)]
  }

  predicate High(u: Unit) { 0xd800 <= u <= 0xdbff }

  predicate Low(u: Unit) { 0xdc00 <= u <= 0xdfff }

  // ---- writing a string ---------------------------------------------------------------------
  // Each writer takes the text that follows, so that nothing has to be concatenated twice.

  function Escaped(u: Unit, rest: Text): Text {
    if ShortEscape(u).Some? then [BACKSLASH, ShortEscape(u).value] + rest
    else if u < 0x20 then LongEscape(u) + rest
    else [u] + rest
  }

  /** The body of a JSON string with its closing quote: paired surrogates as they are, lone ones
      escaped. */
  function Body(s: Text, rest: Text): Text {
    if s == [] then [QUOTE] + rest
    else if High(s[0]) && |s| > 1 && Low(s[1]) then [s[0]] + ([s[1]] + Body(s[2..], rest))
    else if High(s[0]) || Low(s[0]) then LongEscape(s[0]) + Body(s[1..], rest)
    else Escaped(s[0], Body(s[1..], rest))
  }

  function Quoted(s: Text, rest: Text): Text {
    [QUOTE] + Body(s, rest)
  }

  // ---- reading it back ----------------------------------------------------------------------

  /** A JSON string body, read up to its closing quote (section 7 of RFC 8259): what it denotes,
      and what follows. */
  function ReadBody(t: Text): Option<(Text, Text)> {
    if t == [] then None
    else if t[0] == QUOTE then Some(([], t[1..]))
    else if t[0] != BACKSLASH then Cons(t[0], ReadBody(t[1..]))
    else if |t| >= 2 && t[1] != LETTER_U then
      if ShortMeaning(t[1]).Some? then Cons(ShortMeaning(t[1]).value, ReadBody(t[2..])) else None
    else if |t| >= 6 && Hex4(t[2], t[3], t[4], t[5]).Some? then
      Cons(Hex4(t[2], t[3], t[4], t[5]).value, ReadBody(t[6..]))
    else None
  }

  function Cons(u: Unit, rest: Option<(Text, Text)>): Option<(Text, Text)> {
    if rest.Some? then Some(([u] + rest.value.0, rest.value.1)) else None
  }

  function Hex4(a: Unit, b: Unit, c: Unit, d: Unit): Option<Unit> {
    var w, x, y, z := HexValue(a), HexValue(b), HexValue(c), HexValue(d);
    if w.Some? && x.Some? && y.Some? && z.Some? && w.value < 16 && x.value < 16 && y.value < 16 && z.value < 16 then
      Some(w.value * 4096 + x.value * 256 + y.value * 16 + z.value)
    else None
  }

  lemma HexRoundTrip(u: Unit)
    ensures Hex4(HexDigit(u / 4096), HexDigit(u / 256 % 16), HexDigit(u / 16 % 16), HexDigit(u % 16)) == Some(u)
  {
    Digits(u);
  }

  lemma Digits(u: Unit)
    ensures u == u / 4096 * 4096 + u / 256 % 16 * 256 + u / 16 % 16 * 16 + u % 16
  {
    assert u / 16 == u / 256 * 16 + u / 16 % 16;
    assert u / 256 == u / 4096 * 16 + u / 256 % 16;
  }

  lemma LongEscapeReads(u: Unit, rest: Text)
    ensures ReadBody(LongEscape(u) + rest) == Cons(u, ReadBody(rest))
  {
    HexRoundTrip(u);
    var t := LongEscape(u) + rest;
    assert t[6..] == rest;
    assert t[..6] == LongEscape(u);
  }

  lemma ShortEscapeReads(u: Unit, rest: Text)
    requires ShortEscape(u).Some?
    ensures ReadBody([BACKSLASH, ShortEscape(u).value] + rest) == Cons(u, ReadBody(rest))
  {
    assert ([BACKSLASH, ShortEscape(u).value] + rest)[2..] == rest;
  }

  lemma PlainReads(u: Unit, rest: Text)
    requires u != QUOTE && u != BACKSLASH
    ensures ReadBody([u] + rest) == Cons(u, ReadBody(rest))
  {
    assert ([u] + rest)[1..] == rest;
  }

  /** A code unit's escape, whichever form it takes, reads back as that unit. */
  lemma EscapedReads(u: Unit, rest: Text)
    ensures ReadBody(Escaped(u, rest)) == Cons(u, ReadBody(rest))
  {
    if ShortEscape(u).Some? {
      ShortEscapeReads(u, rest);
    } else if u < 0x20 {
      LongEscapeReads(u, rest);
    } else {
      PlainReads(u, rest);
    }
  }

  /** Which form a unit is written in: two units for the seven with a letter of their own, six in lower
      case for the other control characters, itself for the rest. */
  lemma EscapedIs(u: Unit, rest: Text)
    ensures u in {0x08, 0x09, 0x0a, 0x0c, 0x0d, 0x22, 0x5c} ==>
      |Escaped(u, rest)| == 2 + |rest| && Escaped(u, rest)[0] == 0x5c
    ensures u >= 0x20 && u != 0x22 && u != 0x5c ==> Escaped(u, rest) == [u] + rest
    ensures u < 0x20 && u !in {0x08, 0x09, 0x0a, 0x0c, 0x0d} ==> Escaped(u, rest) == LongEscape(u) + rest
    ensures |LongEscape(u)| == 6 && LongEscape(u)[..2] == [0x5c, 0x75]
    ensures forall i :: 2 <= i < 6 ==> 0x30 <= LongEscape(u)[i] <= 0x39 || 0x61 <= LongEscape(u)[i] <= 0x66
  {
  }

  /** Every surrogate is half of a pair. */
  predicate WellPaired(t: Text) {
    if t == [] then true
    else if 0xd800 <= t[0] <= 0xdbff then |t| > 1 && 0xdc00 <= t[1] <= 0xdfff && WellPaired(t[2..])
    else !(0xdc00 <= t[0] <= 0xdfff) && WellPaired(t[1..])
  }

  lemma {:induction false} PlainIsPaired(front: Text, rest: Text)
    requires WellPaired(rest) && forall i :: 0 <= i < |front| ==> !High(front[i]) && !Low(front[i])
    ensures WellPaired(front + rest)
  {
    if front == [] {
      assert front + rest == rest;
    } else {
      assert (front + rest)[1..] == front[1..] + rest;
      PlainIsPaired(front[1..], rest);
    }
  }

  lemma EscapeIsPaired(u: Unit, rest: Text)
    requires WellPaired(rest)
    ensures WellPaired(LongEscape(u) + rest)
    ensures !High(u) && !Low(u) ==> WellPaired(Escaped(u, rest))
  {
    EscapedIs(u, rest);
    PlainIsPaired(LongEscape(u), rest);
    if !High(u) && !Low(u) {
      if ShortEscape(u).Some? {
        PlainIsPaired([BACKSLASH, ShortEscape(u).value], rest);
      } else {
        PlainIsPaired([u], rest);
      }
    }
  }

  /** What is written is well-formed Unicode, even for a string that is not. */
  lemma {:induction false} BodyIsPaired(s: Text, rest: Text)
    requires WellPaired(rest)
    ensures WellPaired(Body(s, rest))
  {
    if s == [] {
      PlainIsPaired([QUOTE], rest);
    } else if High(s[0]) && |s| > 1 && Low(s[1]) {
      BodyIsPaired(s[2..], rest);
      var t := [s[0]] + ([s[1]] + Body(s[2..], rest));
      assert t[1] == s[1] && t[2..] == Body(s[2..], rest);
    } else {
      BodyIsPaired(s[1..], rest);
      EscapeIsPaired(s[0], Body(s[1..], rest));
    }
  }

  /** Round trip: what `JSON.stringify` writes for a string denotes that string. */
  lemma {:induction false} BodyReads(s: Text, rest: Text)
    ensures ReadBody(Body(s, rest)) == Some((s, rest))
  {
    if s == [] {
      assert Body(s, rest)[1..] == rest;
    } else if High(s[0]) && |s| > 1 && Low(s[1]) {
      BodyReads(s[2..], rest);
      PlainReads(s[1], Body(s[2..], rest));
      PlainReads(s[0], [s[1]] + Body(s[2..], rest));
      assert s == [s[0]] + ([s[1]] + s[2..]);
    } else {
      BodyReads(s[1..], rest);
      if High(s[0]) || Low(s[0]) {
        LongEscapeReads(s[0], Body(s[1..], rest));
      } else {
        EscapedReads(s[0], Body(s[1..], rest));
      }
      assert s == [s[0]] + s[1..];
    }
  }

  /** A quoted string ends where it ends: nothing after it can be taken for part of it. */
  lemma QuotedInjective(a: Text, x: Text, b: Text, y: Text)
    requires Quoted(a, x) == Quoted(b, y)
    ensures a == b && x == y
  {
    BodyReads(a, x);
    BodyReads(b, y);
    assert Quoted(a, x)[1..] == Body(a, x);
    assert Quoted(b, y)[1..] == Body(b, y);
  }

  lemma HeadInjective(u: Unit, x: Text, v: Unit, y: Text)
    requires [u] + x == [v] + y
    ensures u == v && x == y
  {
    assert ([u] + x)[1..] == x && ([v] + y)[1..] == y;
    assert ([u] + x)[0] == u && ([v] + y)[0] == v;
  }

  // ---- the key ------------------------------------------------------------------------------

  datatype Link = Link(source: Text, target: Text)

  /** The rest of an array, after one of its items. */
  function IdsTail(ids: seq<Text>, rest: Text): Text {
    if ids == [] then [CLOSE] + rest else [COMMA] + Quoted(ids[0], IdsTail(ids[1..], rest))
  }

  function Ids(ids: seq<Text>, rest: Text): Text {
    [OPEN] + if ids == [] then [CLOSE] + rest else Quoted(ids[0], IdsTail(ids[1..], rest))
  }

  function Pair(e: Link, rest: Text): Text {
    [OPEN] + Quoted(e.source, [COMMA] + Quoted(e.target, [CLOSE] + rest))
  }

  function LinksTail(links: seq<Link>, rest: Text): Text {
    if links == [] then [CLOSE] + rest else [COMMA] + Pair(links[0], LinksTail(links[1..], rest))
  }

  function Links(links: seq<Link>, rest: Text): Text {
    [OPEN] + if links == [] then [CLOSE] + rest else Pair(links[0], LinksTail(links[1..], rest))
  }

  /** `JSON.stringify([ids, links])`. */
  function GraphStructureKey(ids: seq<Text>, links: seq<Link>): Text {
    [OPEN] + Ids(ids, [COMMA] + Links(links, [CLOSE]))
  }

  lemma {:induction false} IdsTailInjective(a: seq<Text>, x: Text, b: seq<Text>, y: Text)
    requires IdsTail(a, x) == IdsTail(b, y)
    ensures a == b && x == y
  {
    if a != [] && b != [] {
      HeadInjective(COMMA, Quoted(a[0], IdsTail(a[1..], x)), COMMA, Quoted(b[0], IdsTail(b[1..], y)));
      QuotedInjective(a[0], IdsTail(a[1..], x), b[0], IdsTail(b[1..], y));
      IdsTailInjective(a[1..], x, b[1..], y);
      assert a == [a[0]] + a[1..] && b == [b[0]] + b[1..];
    } else {
      assert IdsTail(a, x)[0] == IdsTail(b, y)[0];
      HeadInjective(CLOSE, x, CLOSE, y);
    }
  }

  lemma IdsInjective(a: seq<Text>, x: Text, b: seq<Text>, y: Text)
    requires Ids(a, x) == Ids(b, y)
    ensures a == b && x == y
  {
    assert Ids(a, x)[1..] == Ids(b, y)[1..];
    if a != [] && b != [] {
      assert Ids(a, x)[1..] == Quoted(a[0], IdsTail(a[1..], x));
      assert Ids(b, y)[1..] == Quoted(b[0], IdsTail(b[1..], y));
      QuotedInjective(a[0], IdsTail(a[1..], x), b[0], IdsTail(b[1..], y));
      IdsTailInjective(a[1..], x, b[1..], y);
      assert a == [a[0]] + a[1..] && b == [b[0]] + b[1..];
    } else {
      assert Ids(a, x)[1] == Ids(b, y)[1];
      assert a == [] && b == [];
      HeadInjective(OPEN, [CLOSE] + x, OPEN, [CLOSE] + y);
      HeadInjective(CLOSE, x, CLOSE, y);
    }
  }

  lemma PairInjective(a: Link, x: Text, b: Link, y: Text)
    requires Pair(a, x) == Pair(b, y)
    ensures a == b && x == y
  {
    var s, t := [CLOSE] + x, [CLOSE] + y;
    var p, q := [COMMA] + Quoted(a.target, s), [COMMA] + Quoted(b.target, t);
    HeadInjective(OPEN, Quoted(a.source, p), OPEN, Quoted(b.source, q));
    QuotedInjective(a.source, p, b.source, q);
    HeadInjective(COMMA, Quoted(a.target, s), COMMA, Quoted(b.target, t));
    QuotedInjective(a.target, s, b.target, t);
    HeadInjective(CLOSE, x, CLOSE, y);
  }

  lemma {:induction false} LinksTailInjective(a: seq<Link>, x: Text, b: seq<Link>, y: Text)
    requires LinksTail(a, x) == LinksTail(b, y)
    ensures a == b && x == y
  {
    if a != [] && b != [] {
      HeadInjective(COMMA, Pair(a[0], LinksTail(a[1..], x)), COMMA, Pair(b[0], LinksTail(b[1..], y)));
      PairInjective(a[0], LinksTail(a[1..], x), b[0], LinksTail(b[1..], y));
      LinksTailInjective(a[1..], x, b[1..], y);
      assert a == [a[0]] + a[1..] && b == [b[0]] + b[1..];
    } else {
      assert LinksTail(a, x)[0] == LinksTail(b, y)[0];
      HeadInjective(CLOSE, x, CLOSE, y);
    }
  }

  lemma LinksBegin(links: seq<Link>, rest: Text)
    ensures links == [] ==> Links(links, rest) == [OPEN] + ([CLOSE] + rest) && Links(links, rest)[1] == CLOSE
    ensures links != [] ==>
      Links(links, rest) == [OPEN] + Pair(links[0], LinksTail(links[1..], rest)) && Links(links, rest)[1] == OPEN
  {
  }

  lemma LinksInjective(a: seq<Link>, x: Text, b: seq<Link>, y: Text)
    requires Links(a, x) == Links(b, y)
    ensures a == b && x == y
  {
    LinksBegin(a, x);
    LinksBegin(b, y);
    if a != [] {
      assert b != [];
      var p, q := LinksTail(a[1..], x), LinksTail(b[1..], y);
      HeadInjective(OPEN, Pair(a[0], p), OPEN, Pair(b[0], q));
      PairInjective(a[0], p, b[0], q);
      LinksTailInjective(a[1..], x, b[1..], y);
      assert a == [a[0]] + a[1..] && b == [b[0]] + b[1..];
    } else {
      assert b == [];
      HeadInjective(OPEN, [CLOSE] + x, OPEN, [CLOSE] + y);
      HeadInjective(CLOSE, x, CLOSE, y);
    }
  }

  lemma OneUnit(u: Unit, rest: Text)
    requires Plain(u)
    ensures Quoted([u], rest) == [0x22, u, 0x22] + rest
  {
    assert [u][1..] == [];
    assert Body([], rest) == [QUOTE] + rest;
    assert Body([u], rest) == [u] + Body([], rest);
  }

  predicate Plain(u: Unit) {
    u >= 0x20 && u != 0x22 && u != 0x5c && !High(u) && !Low(u)
  }

  lemma OneLink(u: Unit, v: Unit, rest: Text)
    requires Plain(u) && Plain(v)
    ensures Links([Link([u], [v])], rest)
         == [0x5b, 0x5b, 0x22, u, 0x22, 0x2c, 0x22, v, 0x22, 0x5d, 0x5d] + rest
  {
    var links := [Link([u], [v])];
    assert links[1..] == [];
    var end := LinksTail([], rest);
    assert end == [CLOSE] + rest;
    OneUnit(v, [CLOSE] + end);
    OneUnit(u, [COMMA] + Quoted([v], [CLOSE] + end));
    assert Links(links, rest) == [OPEN] + Pair(links[0], end);
  }

  lemma TwoIds(u: Unit, v: Unit, rest: Text)
    requires Plain(u) && Plain(v)
    ensures Ids([[u], [v]], rest) == [0x5b, 0x22, u, 0x22, 0x2c, 0x22, v, 0x22, 0x5d] + rest
  {
    var ids: seq<Text> := [[u], [v]];
    var last := ids[1..];
    assert last == [[v]] && |last[1..]| == 0;
    var end := IdsTail(last[1..], rest);
    assert end == [CLOSE] + rest;
    OneUnit(v, end);
    assert IdsTail(last, rest) == [COMMA] + Quoted([v], end);
    OneUnit(u, IdsTail(last, rest));
    assert Ids(ids, rest) == [OPEN] + Quoted([u], IdsTail(last, rest));
  }

  /** A key in full: `[["u","v"],[["u","v"]]]`. */
  lemma KeyInFull(u: Unit, v: Unit, key: Text)
    requires Plain(u) && Plain(v) && key == GraphStructureKey([[u], [v]], [Link([u], [v])])
    ensures key == [0x5b] + ([0x5b, 0x22, u, 0x22, 0x2c, 0x22, v, 0x22, 0x5d] + ([0x2c]
                 + ([0x5b, 0x5b, 0x22, u, 0x22, 0x2c, 0x22, v, 0x22, 0x5d, 0x5d] + [0x5d])))
  {
    OneLink(u, v, [CLOSE]);
    TwoIds(u, v, [COMMA] + Links([Link([u], [v])], [CLOSE]));
  }

  /** Two graphs share a key exactly when they have the same ids and the same links, in order. */
  lemma KeyIdentifiesStructure(ids: seq<Text>, links: seq<Link>, ids': seq<Text>, links': seq<Link>)
    ensures GraphStructureKey(ids, links) == GraphStructureKey(ids', links') <==> ids == ids' && links == links'
  {
    if GraphStructureKey(ids, links) == GraphStructureKey(ids', links') {
      var x, y := [COMMA] + Links(links, [CLOSE]), [COMMA] + Links(links', [CLOSE]);
      HeadInjective(OPEN, Ids(ids, x), OPEN, Ids(ids', y));
      IdsInjective(ids, x, ids', y);
      HeadInjective(COMMA, Links(links, [CLOSE]), COMMA, Links(links', [CLOSE]));
      LinksInjective(links, [CLOSE], links', [CLOSE]);
    }
  }
}
