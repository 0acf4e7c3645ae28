/** Valve's KeyValues text format: the tokenizer and the recursive parser
    (crates/savr-daemon/src/detection/steam.rs).  Strings are UTF-8 byte sequences. */
module KeyValues {
  import opened Types

  type Byte = b: int | 0 <= b < 256
  type Bytes = seq<Byte>

  const QUOTE: Byte := 34
  const SLASH: Byte := 47
  const BACKSLASH: Byte := 92
  const OPEN: Byte := 123
  const CLOSE: Byte := 125
  const NEWLINE: Byte := 10
  const TAB: Byte := 9
  const LOWER_N: Byte := 110
  const LOWER_T: Byte := 116

  datatype Kv = Leaf(text: Bytes) | Obj(entries: seq<Entry>)
  datatype Entry = Entry(key: Bytes, value: Kv)

  datatype Token = Str(s: Bytes) | Open | Close

  // ---- UTF-8 ----

  predicate Within(b: Byte, lo: int, hi: int) {
    lo <= b <= hi
  }

  predicate Continues(b: Byte) {
    Within(b, 0x80, 0xBF)
  }

  /** Length of the well-formed character `s` starts with, 0 if it starts with none. */
  function CharLen(s: Bytes): (n: nat)
    ensures n <= |s| && n <= 4
  {
    if s == [] then 0
    else if s[0] < 0x80 then 1
    else if Within(s[0], 0xC2, 0xDF) then if |s| >= 2 && Continues(s[1]) then 2 else 0
    else if Within(s[0], 0xE0, 0xEF) then
      if |s| >= 3 && Continues(s[1]) && Continues(s[2])
         && (s[0] == 0xE0 ==> s[1] >= 0xA0) && (s[0] == 0xED ==> s[1] <= 0x9F) then 3 else 0
    else if Within(s[0], 0xF0, 0xF4) then
      if |s| >= 4 && Continues(s[1]) && Continues(s[2]) && Continues(s[3])
         && (s[0] == 0xF0 ==> s[1] >= 0x90) && (s[0] == 0xF4 ==> s[1] <= 0x8F) then 4 else 0
    else 0
  }

  predicate ValidUtf8(s: Bytes) {
    s == [] || (CharLen(s) > 0 && ValidUtf8(s[CharLen(s)..]))
  }

  /** The length the tokenizer assumes from a first byte. */
  function Utf8Len(first: Byte): nat {
    if first < 0x80 then 1 else if first / 32 == 6 then 2 else if first / 16 == 14 then 3 else 4
  }

  // ---- tokenizing ----

  /** `\n` and `\t` are the control characters; any other byte passes as that character. */
  function Unescape(b: Byte): Bytes {
    if b == LOWER_N then [NEWLINE]
    else if b == LOWER_T then [TAB]
    else if b < 0x80 then [b]
    else [0xC0 + b / 64, 0x80 + b % 64]
  }

  function Onto(s: Bytes, r: Option<(Bytes, Bytes)>): Option<(Bytes, Bytes)> {
    if r.None? then None else Some((s + r.value.0, r.value.1))
  }

  /** After an opening quote: the string and what follows its closing quote. */
  function ReadString(t: Bytes): (r: Option<(Bytes, Bytes)>)
    ensures r.Some? ==> |r.value.1| < |t|
    decreases |t|
  {
    if t == [] then None
    else if t[0] == QUOTE then Some(([], t[1..]))
    else if t[0] == BACKSLASH then
      if |t| == 1 then None else Onto(Unescape(t[1]), ReadString(t[2..]))
    else
      var end := if Utf8Len(t[0]) < |t| then Utf8Len(t[0]) else |t|;
      if ValidUtf8(t[..end]) then Onto(t[..end], ReadString(t[end..])) else None
  }

  function DropLine(t: Bytes): (r: Bytes)
    ensures |r| <= |t|
  {
    if t == [] || t[0] == NEWLINE then t else DropLine(t[1..])
  }

  function Prepend(x: Token, r: Option<seq<Token>>): Option<seq<Token>> {
    if r.None? then None else Some([x] + r.value)
  }

  function Lex(t: Bytes): Option<seq<Token>>
    decreases |t|
  {
    if t == [] then Some([])
    else if t[0] == OPEN then Prepend(Open, Lex(t[1..]))
    else if t[0] == CLOSE then Prepend(Close, Lex(t[1..]))
    else if t[0] == QUOTE then
      var r := ReadString(t[1..]);
      if r.None? then None else Prepend(Str(r.value.0), Lex(r.value.1))
    else if t[0] == SLASH && |t| > 1 && t[1] == SLASH then Lex(DropLine(t[1..]))
    else Lex(t[1..])
  }

  function After(done: seq<Token>, r: Option<seq<Token>>): Option<seq<Token>> {
    if r.None? then None else Some(done + r.value)
  }

  /** Where the character that seems to start at `i` ends. */
  function CharEnd(text: Bytes, i: nat): (end: nat)
    requires i < |text|
    ensures i < end <= |text|
  {
    if i + Utf8Len(text[i]) < |text| then i + Utf8Len(text[i]) else |text|
  }

  /** Having read `s` up to `i`, the rest of the string decides what reading from `start` gives. */
  predicate ReadSoFar(text: Bytes, start: nat, s: Bytes, i: nat)
    requires start <= |text| && i <= |text|
  {
    ReadString(text[start..]) == Onto(s, ReadString(text[i..]))
  }

  lemma ReadNothing(text: Bytes, start: nat)
    requires start <= |text|
    ensures ReadSoFar(text, start, [], start)
  {
    var r := ReadString(text[start..]);
    if r.Some? { assert [] + r.value.0 == r.value.0; }
  }

  lemma ReadEscaped(text: Bytes, start: nat, s: Bytes, i: nat)
    requires start <= |text| && i + 1 < |text| && text[i] == BACKSLASH && ReadSoFar(text, start, s, i)
    ensures ReadSoFar(text, start, s + Unescape(text[i + 1]), i + 2)
  {
    var t := text[i..];
    assert t[0] == text[i] && t[1] == text[i + 1];
    assert t[2..] == text[i + 2..];
    OntoTwice(s, Unescape(text[i + 1]), ReadString(text[i + 2..]));
  }

  lemma ReadPlain(text: Bytes, start: nat, s: Bytes, i: nat)
    requires start <= |text| && i < |text| && text[i] != QUOTE && text[i] != BACKSLASH && ReadSoFar(text, start, s, i)
    ensures var end := CharEnd(text, i);
            if ValidUtf8(text[i..end]) then ReadSoFar(text, start, s + text[i..end], end)
            else ReadString(text[start..]).None?
  {
    var t, end := text[i..], CharEnd(text, i);
    assert t[0] == text[i];
    assert t[..end - i] == text[i..end];
    assert t[end - i..] == text[end..];
    OntoTwice(s, text[i..end], ReadString(text[end..]));
  }

  lemma ReadEnd(text: Bytes, start: nat, s: Bytes, i: nat)
    requires start <= |text| && i <= |text| && ReadSoFar(text, start, s, i)
    ensures i == |text| ==> ReadString(text[start..]).None?
    ensures i + 1 == |text| && text[i] == BACKSLASH ==> ReadString(text[start..]).None?
    ensures i < |text| && text[i] == QUOTE ==> ReadString(text[start..]) == Some((s, text[i + 1..]))
  {
    var t := text[i..];
    if i < |text| {
      assert t[0] == text[i];
      assert t[1..] == text[i + 1..];
      assert s + [] == s;
    }
  }

  /** The next character, escaped or plain: appended, or `None` where there is none. */
  method ScanChar(text: Bytes, ghost start: nat, s: Bytes, i: nat) returns (r: Option<Bytes>, next: nat)
    requires start <= |text| && i < |text| && text[i] != QUOTE && ReadSoFar(text, start, s, i)
    ensures r.None? ==> ReadString(text[start..]).None?
    ensures r.Some? ==> i < next <= |text| && ReadSoFar(text, start, r.value, next)
  {
    next := i;
    if text[i] == BACKSLASH {
      if i + 1 >= |text| {
        ReadEnd(text, start, s, i);
        return None, i;
      }
      ReadEscaped(text, start, s, i);
      next := i + 2;
      r := Some(s + Unescape(text[i + 1]));
    } else {
      ReadPlain(text, start, s, i);
      next := CharEnd(text, i);
      var valid := ValidUtf8(text[i..next]);
      r := if valid then Some(s + text[i..next]) else None;
    }
  }

  /** The inner loop over a quoted string. */
  method ScanString(text: Bytes, start: nat) returns (r: Option<Bytes>, i: nat)
    requires start <= |text|
    ensures r.None? <==> ReadString(text[start..]).None?
    ensures r.Some? ==> start < i <= |text| && ReadString(text[start..]) == Some((r.value, text[i..]))
  {
    i := start;
    var s: Bytes := [];
    ReadNothing(text, start);
    while i < |text| && text[i] != QUOTE
      invariant start <= i <= |text|
      invariant ReadSoFar(text, start, s, i)
      decreases |text| - i
    {
      var longer, next := ScanChar(text, start, s, i);
      if longer.None? {
        return None, i;
      }
      s, i := longer.value, next;
    }
    ReadEnd(text, start, s, i);
    if i >= |text| {
      return None, i;
    }
    i := i + 1;
    r := Some(s);
  }

  lemma OntoTwice(a: Bytes, b: Bytes, r: Option<(Bytes, Bytes)>)
    ensures Onto(a, Onto(b, r)) == Onto(a + b, r)
  {
    if r.Some? { assert a + (b + r.value.0) == (a + b) + r.value.0; }
  }

  lemma AfterPrepend(done: seq<Token>, x: Token, r: Option<seq<Token>>)
    ensures After(done, Prepend(x, r)) == After(done + [x], r)
  {
    if r.Some? { assert done + ([x] + r.value) == (done + [x]) + r.value; }
  }

  /** The tokenizer's loop over the bytes. */
  method Tokenize(text: Bytes) returns (r: Option<seq<Token>>)
    ensures r == Lex(text)
  {
    var tokens: seq<Token> := [];
    var i := 0;
    assert text[0..] == text && (Lex(text).Some? ==> [] + Lex(text).value == Lex(text).value);
    while i < |text|
      invariant 0 <= i <= |text|
      invariant Lex(text) == After(tokens, Lex(text[i..]))
    {
      ghost var t := text[i..];
      assert t[1..] == text[i + 1..];
      if text[i] == OPEN {
        AfterPrepend(tokens, Open, Lex(text[i + 1..]));
        tokens := tokens + [Open];
        i := i + 1;
      } else if text[i] == CLOSE {
        AfterPrepend(tokens, Close, Lex(text[i + 1..]));
        tokens := tokens + [Close];
        i := i + 1;
      } else if text[i] == QUOTE {
        var s, end := ScanString(text, i + 1);
        if s.None? {
          return None;
        }
        AfterPrepend(tokens, Str(s.value), Lex(text[end..]));
        tokens := tokens + [Str(s.value)];
        i := end;
      } else if text[i] == SLASH && i + 1 < |text| && text[i + 1] == SLASH {
        i := SkipLine(text, i);
      } else {
        i := i + 1;
      }
    }
    assert tokens + [] == tokens;
    r := Some(tokens);
  }

  method SkipLine(text: Bytes, start: nat) returns (i: nat)
    requires start < |text| && text[start] == SLASH
    ensures start < i <= |text| && text[i..] == DropLine(text[start + 1..])
  {
    i := start + 1;
    while i < |text| && text[i] != NEWLINE
      invariant start < i <= |text|
      invariant DropLine(text[i..]) == DropLine(text[start + 1..])
    {
      assert text[i..][1..] == text[i + 1..];
      i := i + 1;
    }
  }

  // ---- parsing ----

  /** One key with its string or object, and the tokens left. */
  function ParsePair(ts: seq<Token>): (r: Option<(Entry, seq<Token>)>)
    ensures r.Some? ==> |r.value.1| < |ts|
    decreases |ts|, 0
  {
    if |ts| < 2 || !ts[0].Str? then None
    else
      match ts[1]
      case Str(s) => Some((Entry(ts[0].s, Leaf(s)), ts[2..]))
      case Open =>
        var r := ParseObj(ts[2..]);
        if r.None? then None else Some((Entry(ts[0].s, Obj(r.value.0)), r.value.1))
      case Close => None
  }

  /** Entries up to the closing brace, and the tokens after it. */
  function ParseObj(ts: seq<Token>): (r: Option<(seq<Entry>, seq<Token>)>)
    ensures r.Some? ==> |r.value.1| < |ts|
    decreases |ts|, 1
  {
    if ts == [] then None
    else if ts[0] == Close then Some(([], ts[1..]))
    else
      var p := ParsePair(ts);
      if p.None? then None
      else
        var r := ParseObj(p.value.1);
        if r.None? then None else Some(([p.value.0] + r.value.0, r.value.1))
  }

  /** A document: top-level pairs to the end. */
  function ParseTop(ts: seq<Token>): Option<seq<Entry>>
    decreases |ts|
  {
    if ts == [] then Some([])
    else
      var p := ParsePair(ts);
      if p.None? then None
      else
        var r := ParseTop(p.value.1);
        if r.None? then None else Some([p.value.0] + r.value)
  }

  function ParseText(text: Bytes): Option<Kv> {
    var ts := Lex(text);
    if ts.None? then None
    else
      var r := ParseTop(ts.value);
      if r.None? then None else Some(Obj(r.value))
  }

  method ParsePairAt(tokens: seq<Token>, pos: nat) returns (r: Option<Entry>, next: nat)
    requires pos <= |tokens|
    ensures r.None? <==> ParsePair(tokens[pos..]).None?
    ensures r.Some? ==> pos < next <= |tokens| && ParsePair(tokens[pos..]) == Some((r.value, tokens[next..]))
    decreases |tokens| - pos, 0
  {
    ghost var ts := tokens[pos..];
    next := pos;
    if pos >= |tokens| || !tokens[pos].Str? {
      return None, pos;
    }
    var key := tokens[pos].s;
    if pos + 1 >= |tokens| {
      return None, pos;
    }
    assert ts[2..] == tokens[pos + 2..];
    match tokens[pos + 1] {
      case Str(s) =>
        next := pos + 2;
        r := Some(Entry(key, Leaf(s)));
      case Open =>
        var obj;
        obj, next := ParseObjAt(tokens, pos + 2);
        r := if obj.None? then None else Some(Entry(key, obj.value));
      case Close =>
        r := None;
    }
  }

  method ParseObjAt(tokens: seq<Token>, pos: nat) returns (r: Option<Kv>, next: nat)
    requires pos <= |tokens|
    ensures r.None? <==> ParseObj(tokens[pos..]).None?
    ensures r.Some? ==>
      && pos < next <= |tokens| && r.value.Obj?
      && ParseObj(tokens[pos..]) == Some((r.value.entries, tokens[next..]))
    decreases |tokens| - pos, 1
  {
    var entries: seq<Entry> := [];
    next := pos;
    EntriesOntoNone(ParseObj(tokens[pos..]));
    while true
      invariant pos <= next <= |tokens|
      invariant ParseObj(tokens[pos..]) == EntriesOnto(entries, ParseObj(tokens[next..]))
      decreases |tokens| - next
    {
      if next >= |tokens| {
        return None, next;
      }
      ghost var ts := tokens[next..];
      if tokens[next] == Close {
        assert ts[1..] == tokens[next + 1..] && entries + [] == entries;
        next := next + 1;
        return Some(Obj(entries)), next;
      }
      var pair, after := ParsePairAt(tokens, next);
      if pair.None? {
        return None, next;
      }
      EntriesOntoTwice(entries, pair.value, ParseObj(tokens[after..]));
      entries := entries + [pair.value];
      next := after;
    }
  }

  function EntriesOnto(es: seq<Entry>, r: Option<(seq<Entry>, seq<Token>)>): Option<(seq<Entry>, seq<Token>)> {
    if r.None? then None else Some((es + r.value.0, r.value.1))
  }

  lemma EntriesOntoNone(r: Option<(seq<Entry>, seq<Token>)>)
    ensures EntriesOnto([], r) == r
  {
    if r.Some? { assert [] + r.value.0 == r.value.0; }
  }

  lemma EntriesOntoTwice(es: seq<Entry>, e: Entry, r: Option<(seq<Entry>, seq<Token>)>)
    ensures EntriesOnto(es + [e], r) == EntriesOnto(es, EntriesOnto([e], r))
  {
    if r.Some? { assert es + ([e] + r.value.0) == (es + [e]) + r.value.0; }
  }

  /** The whole document, from bytes to tree. */
  method Parse(text: Bytes) returns (r: Option<Kv>)
    ensures r == ParseText(text)
  {
    var lexed := Tokenize(text);
    if lexed.None? {
      return None;
    }
    var tokens := lexed.value;
    var pos := 0;
    var root: seq<Entry> := [];
    assert tokens[0..] == tokens && (ParseTop(tokens).Some? ==> [] + ParseTop(tokens).value == ParseTop(tokens).value);
    while pos < |tokens|
      invariant pos <= |tokens|
      invariant ParseTop(tokens) == TopOnto(root, ParseTop(tokens[pos..]))
      decreases |tokens| - pos
    {
      var pair, next := ParsePairAt(tokens, pos);
      if pair.None? {
        return None;
      }
      ghost var rest := ParseTop(tokens[next..]);
      if rest.Some? { assert root + ([pair.value] + rest.value) == (root + [pair.value]) + rest.value; }
      root := root + [pair.value];
      pos := next;
    }
    assert root + [] == root;
    r := Some(Obj(root));
  }

  function TopOnto(es: seq<Entry>, r: Option<seq<Entry>>): Option<seq<Entry>> {
    if r.None? then None else Some(es + r.value)
  }

  // ---- printing trees as tokens; the parser accepts exactly these ----

  function ValueTokens(v: Kv): seq<Token>
    decreases v, 1
  {
    match v
    case Leaf(s) => [Str(s)]
    case Obj(es) => [Open] + EntryTokens(es) + [Close]
  }

  function EntryTokens(es: seq<Entry>): seq<Token>
    decreases es, 0
  {
    if es == [] then [] else PairTokens(es[0]) + EntryTokens(es[1..])
  }

  function PairTokens(e: Entry): seq<Token>
    decreases e, 2
  {
    [Str(e.key)] + ValueTokens(e.value)
  }

  /** Parsing printed entries gives them back, whatever follows the closing brace. */
  lemma {:induction false} ParsePrinted(es: seq<Entry>, rest: seq<Token>)
    ensures ParseObj(EntryTokens(es) + [Close] + rest) == Some((es, rest))
    decreases es, 0
  {
    var ts := EntryTokens(es) + [Close] + rest;
    if es == [] {
      assert ts == [Close] + rest && ts[1..] == rest;
    } else {
      var tail := EntryTokens(es[1..]) + [Close] + rest;
      assert ts == PairTokens(es[0]) + tail;
      ParsePrintedPair(es[0], tail);
      ParsePrinted(es[1..], rest);
      assert [es[0]] + es[1..] == es;
    }
  }

  lemma {:induction false} ParsePrintedPair(e: Entry, rest: seq<Token>)
    ensures ParsePair(PairTokens(e) + rest) == Some((e, rest))
    decreases e, 2
  {
    var ts := PairTokens(e) + rest;
    match e.value
    case Leaf(s) =>
      assert ts[2..] == rest;
    case Obj(es) =>
      var inner := EntryTokens(es) + [Close] + rest;
      assert ValueTokens(e.value) == [Open] + EntryTokens(es) + [Close];
      assert ts == [Str(e.key), Open] + inner;
      assert ts[2..] == inner;
      ParsePrinted(es, rest);
  }

  lemma {:induction false} ParsePrintedTop(es: seq<Entry>)
    ensures ParseTop(EntryTokens(es)) == Some(es)
  {
    if es != [] {
      ParsePrintedPair(es[0], EntryTokens(es[1..]));
      ParsePrintedTop(es[1..]);
      assert [es[0]] + es[1..] == es;
    }
  }

  lemma {:induction false} ParsedPairIsPrinted(ts: seq<Token>)
    requires ParsePair(ts).Some?
    ensures ts == PairTokens(ParsePair(ts).value.0) + ParsePair(ts).value.1
    decreases |ts|, 0
  {
    if ts[1] == Open {
      ParsedObjIsPrinted(ts[2..]);
    }
    assert ts == [ts[0], ts[1]] + ts[2..];
  }

  lemma {:induction false} ParsedObjIsPrinted(ts: seq<Token>)
    requires ParseObj(ts).Some?
    ensures ts == EntryTokens(ParseObj(ts).value.0) + [Close] + ParseObj(ts).value.1
    decreases |ts|, 1
  {
    if ts[0] != Close {
      var p := ParsePair(ts).value;
      ParsedPairIsPrinted(ts);
      ParsedObjIsPrinted(p.1);
      var r := ParseObj(p.1).value;
      assert ([p.0] + r.0)[1..] == r.0;
    }
  }

  lemma {:induction false} ParsedTopIsPrinted(ts: seq<Token>)
    requires ParseTop(ts).Some?
    ensures ts == EntryTokens(ParseTop(ts).value)
    decreases |ts|
  {
    if ts != [] {
      var p := ParsePair(ts).value;
      ParsedPairIsPrinted(ts);
      ParsedTopIsPrinted(p.1);
      assert ([p.0] + ParseTop(p.1).value)[1..] == ParseTop(p.1).value;
    }
  }

  /** The parser accepts exactly the printed token lists, each as the tree it prints. */
  lemma ParserInvertsPrinter(ts: seq<Token>, es: seq<Entry>)
    ensures ParseTop(ts) == Some(es) <==> ts == EntryTokens(es)
  {
    if ParseTop(ts) == Some(es) { ParsedTopIsPrinted(ts); }
    if ts == EntryTokens(es) { ParsePrintedTop(es); }
  }

  // ---- printing tokens as text ----

  function EscapeByte(b: Byte): Bytes {
    if b == QUOTE then [BACKSLASH, QUOTE]
    else if b == BACKSLASH then [BACKSLASH, BACKSLASH]
    else if b == NEWLINE then [BACKSLASH, LOWER_N]
    else if b == TAB then [BACKSLASH, LOWER_T]
    else [b]
  }

  function Escape(s: Bytes): Bytes {
    if s == [] then [] else EscapeByte(s[0]) + Escape(s[1..])
  }

  lemma {:induction false} EscapeAppend(a: Bytes, b: Bytes)
    ensures Escape(a + b) == Escape(a) + Escape(b)
  {
    if a == [] {
      assert a + b == b;
    } else {
      assert (a + b)[1..] == a[1..] + b;
      EscapeAppend(a[1..], b);
    }
  }

  /** Bytes of a multi-byte character are never escaped. */
  lemma {:induction false} EscapeWide(s: Bytes)
    requires forall i :: 0 <= i < |s| ==> s[i] >= 0x80
    ensures Escape(s) == s
  {
    if s != [] {
      EscapeWide(s[1..]);
    }
  }

  lemma CharAlone(s: Bytes, n: nat)
    requires n == CharLen(s) > 0
    ensures ValidUtf8(s[..n]) && Utf8Len(s[0]) == n
    ensures n > 1 ==> forall i :: 0 <= i < n ==> s[i] >= 0x80
    ensures n == 1 ==> s[0] < 0x80
  {
    var c := s[..n];
    assert CharLen(c) == n;
    assert c[n..] == [];
    assert ValidUtf8(c);
  }

  /** A valid string, escaped and closed by a quote, reads back as itself. */
  lemma {:induction false} ReadEscapedBack(s: Bytes, rest: Bytes)
    requires ValidUtf8(s)
    ensures ReadString(Escape(s) + [QUOTE] + rest) == Some((s, rest))
    decreases |s|
  {
    var t := Escape(s) + [QUOTE] + rest;
    if s == [] {
      assert t == [QUOTE] + rest && t[1..] == rest;
    } else {
      var n := CharLen(s);
      var c, more := s[..n], s[n..];
      var u := Escape(more) + [QUOTE] + rest;
      assert s == c + more;
      CharAlone(s, n);
      EscapeAppend(c, more);
      assert t == Escape(c) + u;
      ReadEscapedBack(more, rest);
      if n == 1 {
        assert Escape(c) == EscapeByte(s[0]) by { assert c == [s[0]] && Escape(c[1..]) == []; }
        ReadEscapedByte(s[0], u);
      } else {
        EscapeWide(c);
        ReadWideChar(c, u);
      }
    }
  }

  lemma ReadEscapedByte(b: Byte, u: Bytes)
    requires b < 0x80
    ensures ReadString(EscapeByte(b) + u) == Onto([b], ReadString(u))
  {
    var t := EscapeByte(b) + u;
    if |EscapeByte(b)| == 2 {
      assert t[2..] == u;
    } else {
      assert t[..1] == [b] && t[1..] == u;
      CharAlone([b], 1);
      assert [b][..1] == [b];
    }
  }

  lemma ReadWideChar(c: Bytes, u: Bytes)
    requires c != [] && c[0] >= 0x80 && Utf8Len(c[0]) == |c| && ValidUtf8(c)
    ensures ReadString(c + u) == Onto(c, ReadString(u))
  {
    var t := c + u;
    assert t[..|c|] == c && t[|c|..] == u;
  }

  function TokenText(x: Token): Bytes {
    match x
    case Str(s) => [QUOTE] + Escape(s) + [QUOTE]
    case Open => [OPEN]
    case Close => [CLOSE]
  }

  /** What may stand between two tokens: one ignored byte, or a comment with its line end. */
  datatype Piece = Space(b: Byte) | Comment(text: Bytes)

  /** A slash is ignored unless another follows. */
  predicate Ignored(p: Piece, next: Bytes) {
    match p
    case Space(b) => b != QUOTE && b != OPEN && b != CLOSE && (b == SLASH ==> next == [] || next[0] != SLASH)
    case Comment(text) => NEWLINE !in text
  }

  function PieceText(p: Piece): Bytes {
    match p
    case Space(b) => [b]
    case Comment(text) => [SLASH, SLASH] + text + [NEWLINE]
  }

  function GapText(gap: seq<Piece>): Bytes {
    if gap == [] then [] else PieceText(gap[0]) + GapText(gap[1..])
  }

  predicate IsGap(gap: seq<Piece>, rest: Bytes) {
    gap == [] || (Ignored(gap[0], GapText(gap[1..]) + rest) && IsGap(gap[1..], rest))
  }

  /** What may end a document: nothing, or a comment on a last line without a line end. */
  predicate IsEnding(last: Bytes) {
    last == [] || (|last| >= 2 && last[0] == SLASH && last[1] == SLASH && NEWLINE !in last)
  }

  /** The tokens as text, `gaps[k]` standing before token k. */
  function Write(ts: seq<Token>, gaps: seq<seq<Piece>>, last: Bytes): Bytes
    requires |gaps| == |ts| + 1
    decreases |ts|, 1
  {
    GapText(gaps[0]) + AfterGap(ts, gaps, last)
  }

  function AfterGap(ts: seq<Token>, gaps: seq<seq<Piece>>, last: Bytes): Bytes
    requires |gaps| == |ts| + 1
    decreases |ts|, 0
  {
    if ts == [] then last else TokenText(ts[0]) + Write(ts[1..], gaps[1..], last)
  }

  predicate AreGaps(ts: seq<Token>, gaps: seq<seq<Piece>>, last: Bytes)
    requires |gaps| == |ts| + 1
  {
    IsGap(gaps[0], AfterGap(ts, gaps, last)) && (ts == [] || AreGaps(ts[1..], gaps[1..], last))
  }

  lemma {:induction false} DropComment(text: Bytes, rest: Bytes)
    requires NEWLINE !in text
    ensures DropLine(text + [NEWLINE] + rest) == [NEWLINE] + rest
    ensures DropLine(text) == []
  {
    if text == [] {
      assert text + [NEWLINE] + rest == [NEWLINE] + rest;
    } else {
      assert (text + [NEWLINE] + rest)[1..] == text[1..] + [NEWLINE] + rest;
      DropComment(text[1..], rest);
    }
  }

  lemma LexPiece(p: Piece, rest: Bytes)
    requires Ignored(p, rest)
    ensures Lex(PieceText(p) + rest) == Lex(rest)
  {
    match p
    case Space(b) =>
      assert ([b] + rest)[1..] == rest;
    case Comment(text) =>
      var t := [SLASH, SLASH] + text + [NEWLINE] + rest;
      assert PieceText(p) + rest == t;
      assert t[1..] == [SLASH] + text + [NEWLINE] + rest;
      DropComment([SLASH] + text, rest);
      assert Lex(t) == Lex([NEWLINE] + rest);
      assert ([NEWLINE] + rest)[1..] == rest;
  }

  lemma {:induction false} LexSkipsGap(gap: seq<Piece>, rest: Bytes)
    requires IsGap(gap, rest)
    ensures Lex(GapText(gap) + rest) == Lex(rest)
  {
    if gap == [] {
      assert GapText(gap) + rest == rest;
    } else {
      var more := GapText(gap[1..]) + rest;
      LexSkipsGap(gap[1..], rest);
      LexPiece(gap[0], more);
      assert GapText(gap) + rest == PieceText(gap[0]) + more;
    }
  }

  lemma LexToken(x: Token, rest: Bytes)
    requires ValidToken(x)
    ensures Lex(TokenText(x) + rest) == Prepend(x, Lex(rest))
  {
    var t := TokenText(x) + rest;
    if x.Str? {
      assert t[1..] == Escape(x.s) + [QUOTE] + rest;
      ReadEscapedBack(x.s, rest);
    } else {
      assert t[1..] == rest;
    }
  }

  lemma LexEnding(last: Bytes)
    requires IsEnding(last)
    ensures Lex(last) == Some([])
  {
    if last != [] {
      DropComment(last[1..], []);
    }
  }

  predicate ValidToken(x: Token) {
    x.Str? ==> ValidUtf8(x.s)
  }

  predicate ValidTokens(ts: seq<Token>) {
    ts == [] || (ValidToken(ts[0]) && ValidTokens(ts[1..]))
  }

  lemma LexOneMore(gap: seq<Piece>, x: Token, more: Bytes, tail: seq<Token>)
    requires IsGap(gap, TokenText(x) + more) && ValidToken(x) && Lex(more) == Some(tail)
    ensures Lex(GapText(gap) + (TokenText(x) + more)) == Some([x] + tail)
  {
    LexSkipsGap(gap, TokenText(x) + more);
    LexToken(x, more);
  }

  lemma WriteUnfolds(ts: seq<Token>, gaps: seq<seq<Piece>>, last: Bytes)
    requires ts != [] && |gaps| == |ts| + 1 && ValidTokens(ts) && AreGaps(ts, gaps, last)
    ensures var more := Write(ts[1..], gaps[1..], last);
      && Write(ts, gaps, last) == GapText(gaps[0]) + (TokenText(ts[0]) + more)
      && IsGap(gaps[0], TokenText(ts[0]) + more) && ValidToken(ts[0])
      && ValidTokens(ts[1..]) && AreGaps(ts[1..], gaps[1..], last)
  {
  }

  /** However the tokens are laid out, the tokenizer finds them again. */
  lemma {:induction false} LexWritten(ts: seq<Token>, gaps: seq<seq<Piece>>, last: Bytes)
    requires |gaps| == |ts| + 1
    requires ValidTokens(ts) && AreGaps(ts, gaps, last)
    requires IsEnding(last)
    ensures Lex(Write(ts, gaps, last)) == Some(ts)
    decreases |ts|
  {
    if ts == [] {
      LexSkipsGap(gaps[0], last);
      LexEnding(last);
    } else {
      WriteUnfolds(ts, gaps, last);
      LexWritten(ts[1..], gaps[1..], last);
      LexOneMore(gaps[0], ts[0], Write(ts[1..], gaps[1..], last), ts[1..]);
      assert [ts[0]] + ts[1..] == ts;
    }
  }

  /** A tree whose strings are UTF-8, printed in any layout, is what parsing gives back. */
  lemma ParseInvertsWrite(es: seq<Entry>, gaps: seq<seq<Piece>>, last: Bytes)
    requires |gaps| == |EntryTokens(es)| + 1
    requires ValidTokens(EntryTokens(es)) && AreGaps(EntryTokens(es), gaps, last)
    requires IsEnding(last)
    ensures ParseText(Write(EntryTokens(es), gaps, last)) == Some(Obj(es))
  {
    LexWritten(EntryTokens(es), gaps, last);
    ParserInvertsPrinter(EntryTokens(es), es);
  }

  /** A text parses to a tree just when its tokens are the tree's: layout carries nothing. */
  lemma ParseReadsTokensOnly(text: Bytes, es: seq<Entry>)
    ensures ParseText(text) == Some(Obj(es)) <==> Lex(text) == Some(EntryTokens(es))
  {
    if Lex(text).Some? { ParserInvertsPrinter(Lex(text).value, es); }
  }

  /** A backslash is accepted before an ASCII character only, in any UTF-8 text. */
  lemma EscapesAreAscii(s: Bytes)
    requires s != [] && ValidUtf8(s)
    ensures ReadString([BACKSLASH] + s).Some? <==> s[0] < 0x80 && ReadString(s[1..]).Some?
  {
    var t := [BACKSLASH] + s;
    assert t[2..] == s[1..];
    if s[0] >= 0x80 {
      var u := s[1..];
      assert Continues(u[0]);
      assert CharLen(u[..CharEnd(u, 0)]) == 0;
      assert ReadString(u) == None;
    }
  }

  /** Which bytes are tokens or start one; every other is passed over. */
  lemma LexByte(b: Byte, t: Bytes)
    ensures b == 123 ==> Lex([b] + t) == Prepend(Open, Lex(t))
    ensures b == 125 ==> Lex([b] + t) == Prepend(Close, Lex(t))
    ensures b !in {34, 47, 123, 125} ==> Lex([b] + t) == Lex(t)
    ensures b == 34 && ReadString(t).None? ==> Lex([b] + t) == None
    ensures b == 47 && (t == [] || t[0] != 47) ==> Lex([b] + t) == Lex(t)
  {
    assert ([b] + t)[1..] == t;
  }

  /** What an escape reads as: a line feed for `n`, a tab for `t`, and for any other ASCII
      byte that byte, the backslash gone. */
  lemma AsciiEscapes(b: Byte, t: Bytes)
    requires b < 128
    ensures var r, c := ReadString(t), if b == 110 then 10 else if b == 116 then 9 else b;
      ReadString([92, b] + t) == if r.None? then None else Some(([c] + r.value.0, r.value.1))
  {
    assert ([92, b] + t)[2..] == t;
  }

  lemma CharLenConcat(a: Bytes, b: Bytes)
    requires CharLen(a) > 0
    ensures CharLen(a + b) == CharLen(a) && (a + b)[CharLen(a)..] == a[CharLen(a)..] + b
  {
  }

  lemma ValidPrepend(s: Bytes)
    requires CharLen(s) > 0 && ValidUtf8(s[CharLen(s)..])
    ensures ValidUtf8(s)
  {
  }

  lemma {:induction false} ValidConcat(a: Bytes, b: Bytes)
    requires ValidUtf8(a) && ValidUtf8(b)
    ensures ValidUtf8(a + b)
    decreases |a|
  {
    if a == [] {
      assert a + b == b;
    } else {
      ValidConcat(a[CharLen(a)..], b);
      CharLenConcat(a, b);
      ValidPrepend(a + b);
    }
  }

  lemma ClosedFurther(t: Bytes, n: nat, head: Bytes)
    requires n <= |t| && ValidUtf8(head) && ReadString(t) == Onto(head, ReadString(t[n..]))
    requires ReadString(t[n..]).Some? ==>
      var (s, rest) := ReadString(t[n..]).value;
      && |rest| < |t| - n && t[n..][|t| - n - |rest| - 1] == 34 && t[n..][|t| - n - |rest|..] == rest && ValidUtf8(s)
    ensures ReadString(t).Some? ==>
      var (s, rest) := ReadString(t).value;
      && |rest| < |t| && t[|t| - |rest| - 1] == 34 && t[|t| - |rest|..] == rest && ValidUtf8(s)
  {
    if ReadString(t[n..]).Some? {
      var (s, rest) := ReadString(t[n..]).value;
      EndOfRest(t, n, rest);
      ValidConcat(head, s);
    }
  }

  lemma EndOfRest(t: Bytes, n: nat, rest: Bytes)
    requires n <= |t| && |rest| < |t| - n && t[n..][|t| - n - |rest|..] == rest
    ensures t[|t| - |rest|..] == rest && t[|t| - |rest| - 1] == t[n..][|t| - n - |rest| - 1]
  {
    assert t[n..][|t| - n - |rest|..] == t[|t| - |rest|..];
  }

  lemma ReadUnfolds(t: Bytes)
    requires t != [] && t[0] != QUOTE
    ensures t[0] == BACKSLASH && |t| > 1 ==>
      ReadString(t) == Onto(Unescape(t[1]), ReadString(t[2..]))
    ensures t == [BACKSLASH] ==> ReadString(t) == None
    ensures t[0] != BACKSLASH ==>
      var end := CharEnd(t, 0);
      ReadString(t) == if ValidUtf8(t[..end]) then Onto(t[..end], ReadString(t[end..])) else None
  {
  }

  lemma UnescapedIsValid(b: Byte)
    ensures ValidUtf8(Unescape(b))
  {
    var s := Unescape(b);
    assert s[CharLen(s)..] == [];
  }

  /** A string is read only up to a closing quote, and is valid UTF-8. */
  lemma {:induction false} ReadIsClosed(t: Bytes)
    ensures ReadString(t).Some? ==>
      var (s, rest) := ReadString(t).value;
      && |rest| < |t| && t[|t| - |rest| - 1] == 34 && t[|t| - |rest|..] == rest && ValidUtf8(s)
    decreases |t|
  {
    if t != [] && t[0] != QUOTE {
      ReadUnfolds(t);
      if t[0] != BACKSLASH {
        ReadIsClosed(t[CharEnd(t, 0)..]);
        if ValidUtf8(t[..CharEnd(t, 0)]) { ClosedFurther(t, CharEnd(t, 0), t[..CharEnd(t, 0)]); }
      } else if |t| > 1 {
        ReadIsClosed(t[2..]);
        UnescapedIsValid(t[1]);
        ClosedFurther(t, 2, Unescape(t[1]));
      }
    }
  }
}
