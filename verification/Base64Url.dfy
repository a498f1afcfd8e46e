/** Base64 with the URL-safe alphabet (section 5 of RFC 4648), printed without padding and
    read back by the standard library's lenient decoder. */
module Base64Url {
  import opened Prelude

  type Byte = b: int | 0 <= b < 256
  type Sextet = v: int | 0 <= v < 64

  const PAD := '='

  function Symbol(v: Sextet): char {
    if v < 26 then ('A' as int + v) as char
    else if v < 52 then ('a' as int + v - 26) as char
    else if v < 62 then ('0' as int + v - 52) as char
    else if v == 62 then '-'
    else '_'
  }

  /** The decoder first maps '-' and '_' to '+' and '/', so it reads both spellings. */
  function SymbolValue(c: char): Option<Sextet> {
    if 'A' <= c <= 'Z' then Some(c as int - 'A' as int)
    else if 'a' <= c <= 'z' then Some(c as int - 'a' as int + 26)
    else if '0' <= c <= '9' then Some(c as int - '0' as int + 52)
    else if c == '-' || c == '+' then Some(62)
    else if c == '_' || c == '/' then Some(63)
    else None
  }

  lemma SymbolRoundTrip(v: Sextet)
    ensures SymbolValue(Symbol(v)) == Some(v)
    ensures Symbol(v) != '.' && Symbol(v) != PAD && Symbol(v) as int < 128
  {
  }

  const UPPER := "ABCDEFGHIJKLMNOPQRSTUVWXYZ"
  const LOWER := "abcdefghijklmnopqrstuvwxyz"
  const DIGITS := "0123456789-_"
  const ALPHABET := UPPER + LOWER + DIGITS

  lemma LettersAndDigits(k: nat)
    ensures |UPPER| == 26 && |LOWER| == 26 && |DIGITS| == 12
    ensures k < 26 ==> UPPER[k] as int == 'A' as int + k && LOWER[k] as int == 'a' as int + k
    ensures k < 10 ==> DIGITS[k] as int == '0' as int + k
  {
  }

  /** The symbols are the alphabet of table 2 of RFC 4648, in its order, and the decoder reads no others but the two of
      table 1 that differ. */
  lemma SymbolsAreTheAlphabet(v: Sextet, c: char)
    ensures |ALPHABET| == 64 && Symbol(v) == ALPHABET[v]
    ensures SymbolValue(c) == Some(v) <==> c == ALPHABET[v] || (v == 62 && c == '+') || (v == 63 && c == '/')
  {
    LettersAndDigits(if v < 26 then v else if v < 52 then v - 26 else v - 52);
  }

  /** What the alphabet spells: a six-bit value, or the padding character. */
  datatype Token = Data(v: Sextet) | Pad

  function Print(t: Token): char {
    match t
    case Data(v) => Symbol(v)
    case Pad => PAD
  }

  function Render(tokens: seq<Token>): string {
    if tokens == [] then "" else [Print(tokens[0])] + Render(tokens[1..])
  }

  /** Three bytes become four sextets; a short last group is padded. */
  function Groups(raw: seq<Byte>): seq<Token> {
    if raw == [] then []
    else if |raw| == 1 then
      [Data(raw[0] / 4), Data(raw[0] % 4 * 16), Pad, Pad]
    else if |raw| == 2 then
      [Data(raw[0] / 4), Data(raw[0] % 4 * 16 + raw[1] / 16), Data(raw[1] % 16 * 4), Pad]
    else
      [Data(raw[0] / 4), Data(raw[0] % 4 * 16 + raw[1] / 16),
       Data(raw[1] % 16 * 4 + raw[2] / 64), Data(raw[2] % 64)]
      + Groups(raw[3..])
  }

  function Pads(n: nat): seq<Token> {
    if n == 0 then [] else [Pad] + Pads(n - 1)
  }

  function EncodePadded(raw: seq<Byte>): string {
    Render(Groups(raw))
  }

  /** Three bytes and the four sextets for them are the same number, first digit first. */
  lemma GroupIsItsNumber(a: Byte, b: Byte, c: Byte)
    ensures var g := Groups([a, b, c]);
            && |g| == 4 && g[0].Data? && g[1].Data? && g[2].Data? && g[3].Data?
            && 262144 * g[0].v + 4096 * g[1].v + 64 * g[2].v + g[3].v == 65536 * a + 256 * b + c
  {
    assert [a, b, c][3..] == [];
  }

  function StripRight(text: string, c: char): string {
    if text != "" && text[|text| - 1] == c then StripRight(text[..|text| - 1], c) else text
  }

  function Encode(raw: seq<Byte>): string {
    StripRight(EncodePadded(raw), PAD)
  }

  function Repeat(c: char, n: nat): string {
    seq(n, _ => c)
  }

  /** The characters the decoder acts on: it skips everything outside the alphabet. */
  function Lex(text: string): seq<Token> {
    if text == "" then []
    else if text[0] == PAD then [Pad] + Lex(text[1..])
    else match SymbolValue(text[0])
      case None => Lex(text[1..])
      case Some(v) => [Data(v)] + Lex(text[1..])
  }

  /** The lenient scan. `quad` symbols of the current group have been read, `left` holds their
      bits not yet emitted, `pads` counts the padding seen since the last symbol. None stands
      for the decoder's exception. */
  function Scan(tokens: seq<Token>, quad: nat, left: nat, pads: nat): Option<seq<Byte>>
    requires quad < 4
    requires left < (if quad == 1 then 64 else if quad == 2 then 16 else if quad == 3 then 4 else 1)
  {
    if tokens == [] then
      if quad == 0 then Some([]) else None
    else match tokens[0]
      case Pad =>
        if quad < 2 then Scan(tokens[1..], quad, left, pads)
        else if quad + pads + 1 >= 4 then Some([])
        else Scan(tokens[1..], quad, left, pads + 1)
      case Data(v) =>
        if quad == 0 then Scan(tokens[1..], 1, v, 0)
        else if quad == 1 then Emit(left * 4 + v / 16, Scan(tokens[1..], 2, v % 16, 0))
        else if quad == 2 then Emit(left * 16 + v / 4, Scan(tokens[1..], 3, v % 4, 0))
        else Emit(left * 64 + v, Scan(tokens[1..], 0, 0, 0))
  }

  function Emit(b: Byte, rest: Option<seq<Byte>>): Option<seq<Byte>> {
    match rest
    case None => None
    case Some(bytes) => Some([b] + bytes)
  }

  predicate Ascii(text: string) {
    forall i :: 0 <= i < |text| ==> text[i] as int < 128
  }

  function Padding(length: nat): nat {
    (4 - length % 4) % 4
  }

  function Decode(raw: string): Option<seq<Byte>> {
    if !Ascii(raw) then None
    else Scan(Lex(raw + Repeat(PAD, Padding(|raw|))), 0, 0, 0)
  }

  /** The symbols of the encoding, without padding. */
  ghost predicate PlainSymbols(text: string) {
    forall i :: 0 <= i < |text| ==> text[i] != '.' && text[i] != PAD && text[i] as int < 128
  }

  lemma {:induction false} LexRender(tokens: seq<Token>)
    ensures Lex(Render(tokens)) == tokens
  {
    if tokens == [] {
    } else {
      LexRender(tokens[1..]);
      if tokens[0].Data? {
        SymbolRoundTrip(tokens[0].v);
      }
      assert Render(tokens)[1..] == Render(tokens[1..]);
      assert tokens == [tokens[0]] + tokens[1..];
    }
  }

  lemma {:induction false} RenderConcat(a: seq<Token>, b: seq<Token>)
    ensures Render(a + b) == Render(a) + Render(b)
  {
    if a == [] {
      assert a + b == b;
    } else {
      assert (a + b)[1..] == a[1..] + b;
      RenderConcat(a[1..], b);
      ConcatAssociates([Print(a[0])], Render(a[1..]), Render(b));
    }
  }

  lemma {:induction false} RenderData(tokens: seq<Token>)
    requires forall i :: 0 <= i < |tokens| ==> tokens[i].Data?
    ensures |Render(tokens)| == |tokens| && PlainSymbols(Render(tokens))
  {
    if tokens == [] {
    } else {
      RenderData(tokens[1..]);
      SymbolRoundTrip(tokens[0].v);
    }
  }

  /** The groups without their padding. */
  ghost function DataOf(raw: seq<Byte>): seq<Token> {
    if raw == [] then []
    else if |raw| == 1 then [Data(raw[0] / 4), Data(raw[0] % 4 * 16)]
    else if |raw| == 2 then [Data(raw[0] / 4), Data(raw[0] % 4 * 16 + raw[1] / 16), Data(raw[1] % 16 * 4)]
    else Groups(raw)[..4] + DataOf(raw[3..])
  }

  lemma {:induction false} DataIsData(raw: seq<Byte>)
    ensures forall i :: 0 <= i < |DataOf(raw)| ==> DataOf(raw)[i].Data?
    ensures raw != [] ==> |DataOf(raw)| >= 2
  {
    if |raw| < 3 {
    } else {
      DataIsData(raw[3..]);
    }
  }

  lemma ShortGroupsShape(raw: seq<Byte>)
    requires |raw| < 3
    ensures Groups(raw) == DataOf(raw) + Pads(Padding(|DataOf(raw)|))
  {
    assert Pads(1) == [Pad] && Pads(2) == [Pad] + Pads(1);
  }

  lemma PadsAfterGroup(first: seq<Token>, rest: seq<Token>)
    requires |first| == 4
    ensures first + (rest + Pads(Padding(|rest|))) == first + rest + Pads(Padding(|first + rest|))
  {
    ConcatAssociates(first, rest, Pads(Padding(|rest|)));
    assert Padding(|first + rest|) == Padding(|rest|);
  }

  /** The groups are data followed by as much padding as their length calls for. */
  lemma {:induction false} GroupsShape(raw: seq<Byte>)
    ensures Groups(raw) == DataOf(raw) + Pads(Padding(|DataOf(raw)|))
  {
    if |raw| < 3 {
      ShortGroupsShape(raw);
    } else {
      GroupsShape(raw[3..]);
      assert Groups(raw) == Groups(raw)[..4] + Groups(raw[3..]);
      PadsAfterGroup(Groups(raw)[..4], DataOf(raw[3..]));
    }
  }

  lemma {:induction false} RenderPads(n: nat)
    ensures Render(Pads(n)) == Repeat(PAD, n)
  {
    if n == 0 {
    } else {
      RenderPads(n - 1);
      assert Pads(n)[1..] == Pads(n - 1);
      assert Repeat(PAD, n) == [PAD] + Repeat(PAD, n - 1);
    }
  }

  lemma {:induction false} StripPads(text: string, n: nat)
    requires PlainSymbols(text)
    ensures StripRight(text + Repeat(PAD, n), PAD) == text
  {
    if n == 0 {
      assert text + Repeat(PAD, n) == text;
    } else {
      var padded := text + Repeat(PAD, n);
      assert padded[..|padded| - 1] == text + Repeat(PAD, n - 1);
      StripPads(text, n - 1);
    }
  }

  /** Stripping leaves plain symbols, and takes away just the padding that the length calls for. */
  lemma EncodeShape(raw: seq<Byte>)
    ensures PlainSymbols(Encode(raw))
    ensures Encode(raw) + Repeat(PAD, Padding(|Encode(raw)|)) == EncodePadded(raw)
    ensures raw != [] ==> |Encode(raw)| >= 2
  {
    var data := DataOf(raw);
    DataIsData(raw);
    GroupsShape(raw);
    RenderData(data);
    RenderConcat(data, Pads(Padding(|data|)));
    RenderPads(Padding(|data|));
    StripPads(Render(data), Padding(|data|));
  }

  lemma {:induction false} ScanGroups(raw: seq<Byte>)
    ensures Scan(Groups(raw), 0, 0, 0) == Some(raw)
  {
    if raw == [] {
    } else if |raw| == 1 {
      ScanOne(raw[0]);
      assert raw == [raw[0]];
    } else if |raw| == 2 {
      ScanTwo(raw[0], raw[1]);
      assert raw == [raw[0], raw[1]];
    } else {
      ScanGroup(raw[0], raw[1], raw[2], Groups(raw[3..]));
      ScanGroups(raw[3..]);
      assert [raw[0]] + ([raw[1]] + ([raw[2]] + raw[3..])) == raw;
    }
  }

  lemma ScanOne(a: Byte)
    ensures Scan([Data(a / 4), Data(a % 4 * 16), Pad, Pad], 0, 0, 0) == Some([a])
  {
    var t := [Data(a / 4), Data(a % 4 * 16), Pad, Pad];
    assert t[1..][1..] == t[2..] && t[2..][1..] == t[3..];
    assert Scan(t[3..], 2, 0, 1) == Some([]);
    assert Scan(t[2..], 2, 0, 0) == Some([]);
    assert Scan(t[1..], 1, a / 4, 0) == Emit(a, Some([]));
    assert [a] + [] == [a];
  }

  lemma ScanTwo(a: Byte, b: Byte)
    ensures Scan([Data(a / 4), Data(a % 4 * 16 + b / 16), Data(b % 16 * 4), Pad], 0, 0, 0) == Some([a, b])
  {
    var t := [Data(a / 4), Data(a % 4 * 16 + b / 16), Data(b % 16 * 4), Pad];
    assert t[1..][1..] == t[2..] && t[2..][1..] == t[3..];
    assert Scan(t[3..], 3, 0, 0) == Some([]);
    assert Scan(t[2..], 2, b / 16, 0) == Emit(b, Some([]));
    assert Scan(t[1..], 1, a / 4, 0) == Emit(a, Emit(b, Some([])));
    assert [a] + ([b] + []) == [a, b];
  }

  lemma ScanGroup(a: Byte, b: Byte, c: Byte, rest: seq<Token>)
    ensures var t := [Data(a / 4), Data(a % 4 * 16 + b / 16), Data(b % 16 * 4 + c / 64), Data(c % 64)] + rest;
            Scan(t, 0, 0, 0) == Emit(a, Emit(b, Emit(c, Scan(rest, 0, 0, 0))))
  {
    var t := [Data(a / 4), Data(a % 4 * 16 + b / 16), Data(b % 16 * 4 + c / 64), Data(c % 64)] + rest;
    assert t[1..][1..] == t[2..] && t[2..][1..] == t[3..] && t[3..][1..] == rest;
    assert Scan(t[3..], 3, c / 64, 0) == Emit(c, Scan(rest, 0, 0, 0));
    assert Scan(t[2..], 2, b / 16, 0) == Emit(b, Scan(t[3..], 3, c / 64, 0));
    assert Scan(t[1..], 1, a / 4, 0) == Emit(a, Scan(t[2..], 2, b / 16, 0));
  }

  /** Unpadded base64url decodes to its input, whatever the length of the input. */
  lemma RoundTrip(raw: seq<Byte>)
    ensures Decode(Encode(raw)) == Some(raw)
  {
    EncodeShape(raw);
    LexRender(Groups(raw));
    ScanGroups(raw);
    assert Ascii(Encode(raw));
  }

  /** The printed form can stand between dots: it holds no dot, and is non-empty when the input is. */
  lemma DotFree(raw: seq<Byte>)
    ensures '.' !in Encode(raw)
    ensures Ascii(Encode(raw))
    ensures raw != [] ==> Encode(raw) != ""
  {
    EncodeShape(raw);
  }
}
