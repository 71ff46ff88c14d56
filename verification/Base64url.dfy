/** Base64 with the URL and filename safe alphabet (section 5 of RFC 4648), its padding stripped and put back. */
module Base64url {
  import opened Wrappers

  type Byte = b: int | 0 <= b < 256 witness 0

  /** The character of a six-bit value. */
  function Symbol(v: nat): char
    requires v < 64
  {
    if v < 26 then 'A' + v as char
    else if v < 52 then 'a' + (v - 26) as char
    else if v < 62 then '0' + (v - 52) as char
    else if v == 62 then '-' else '_'
  }

  function ValueOf(c: char): Option<nat> {
    if 'A' <= c <= 'Z' then Some((c - 'A') as nat)
    else if 'a' <= c <= 'z' then Some((c - 'a') as nat + 26)
    else if '0' <= c <= '9' then Some((c - '0') as nat + 52)
    else if c == '-' then Some(62) else if c == '_' then Some(63) else None
  }

  lemma SymbolsDecode(v: nat)
    requires v < 64
    ensures ValueOf(Symbol(v)) == Some(v) && Symbol(v) != '=' && Symbol(v) != '.'
  {
  }

  predicate InAlphabet(text: string) {
    forall i :: 0 <= i < |text| ==> ValueOf(text[i]).Some?
  }

  /** Table 2 of RFC 4648: the capitals, the small letters, the digits, '-' and '_', each run in its order; and a text
      is in the alphabet when each of its characters is in the table. */
  lemma SymbolsAreTheTable(v: nat, text: string)
    requires v < 64
    ensures Symbol(0) == 'A' && Symbol(26) == 'a' && Symbol(52) == '0' && Symbol(62) == '-' && Symbol(63) == '_'
    ensures v !in {25, 51, 61, 62, 63} ==> Symbol(v + 1) as int == Symbol(v) as int + 1
    ensures InAlphabet(text) <==> forall i :: 0 <= i < |text| ==> exists w: nat :: w < 64 && text[i] == Symbol(w)
  {
    forall i | 0 <= i < |text|
      ensures ValueOf(text[i]).Some? <==> exists w: nat :: w < 64 && text[i] == Symbol(w)
    {
      if ValueOf(text[i]).Some? {
        var w := ValueOf(text[i]).value;
        assert Symbol(w) == text[i];
      }
      if w: nat :| w < 64 && text[i] == Symbol(w) {
        SymbolsDecode(w);
      }
    }
  }

  /** The four six-bit values of three bytes. */
  function Bits1(x: Byte): (r: nat)
    ensures r < 64
  {
    x / 4
  }

  function Bits2(x: Byte, y: Byte): (r: nat)
    ensures r < 64
  {
    x % 4 * 16 + y / 16
  }

  function Bits3(y: Byte, z: Byte): (r: nat)
    ensures r < 64
  {
    y % 16 * 4 + z / 64
  }

  function Bits4(z: Byte): (r: nat)
    ensures r < 64
  {
    z % 64
  }

  /** The three bytes of four six-bit values. */
  function Byte1(p: nat, q: nat): Byte {
    (p * 4 + q / 16) % 256
  }

  function Byte2(q: nat, r: nat): Byte {
    (q % 16 * 16 + r / 4) % 256
  }

  function Byte3(r: nat, s: nat): Byte {
    (r % 4 * 64 + s) % 256
  }

  /** Three bytes and their four values are one number of twenty-four bits, the first of each its highest. */
  lemma GroupIsOneNumber(x: Byte, y: Byte, z: Byte)
    ensures ((Bits1(x) * 64 + Bits2(x, y)) * 64 + Bits3(y, z)) * 64 + Bits4(z) == (x * 256 + y) * 256 + z
  {
    assert x == x / 4 * 4 + x % 4 && y == y / 16 * 16 + y % 16 && z == z / 64 * 64 + z % 64;
  }

  lemma BytesOfBits(x: Byte, y: Byte, z: Byte)
    ensures Byte1(Bits1(x), Bits2(x, y)) == x
    ensures Byte2(Bits2(x, y), Bits3(y, z)) == y
    ensures Byte3(Bits3(y, z), Bits4(z)) == z
  {
    assert (x % 4 * 16 + y / 16) / 16 == x % 4 && (x % 4 * 16 + y / 16) % 16 == y / 16;
    assert (y % 16 * 4 + z / 64) / 4 == y % 16 && (y % 16 * 4 + z / 64) % 4 == z / 64;
  }

  /** Three bytes as four characters; one or two left over padded to four. */
  function Padded(bytes: seq<Byte>): string {
    if |bytes| == 0 then ""
    else if |bytes| == 1 then [Symbol(Bits1(bytes[0])), Symbol(Bits2(bytes[0], 0)), '=', '=']
    else if |bytes| == 2 then
      [Symbol(Bits1(bytes[0])), Symbol(Bits2(bytes[0], bytes[1])), Symbol(Bits3(bytes[1], 0)), '=']
    else
      [Symbol(Bits1(bytes[0])), Symbol(Bits2(bytes[0], bytes[1])), Symbol(Bits3(bytes[1], bytes[2])),
       Symbol(Bits4(bytes[2]))]
      + Padded(bytes[3..])
  }

  /** `rstrip("=")`. */
  function Stripped(text: string): string {
    if text != "" && text[|text| - 1] == '=' then Stripped(text[..|text| - 1]) else text
  }

  function Encode(bytes: seq<Byte>): string {
    Stripped(Padded(bytes))
  }

  /** As many as bring a length to a multiple of four. */
  function Padding(length: nat): string {
    match (4 - length % 4) % 4
    case 0 => "" case 1 => "=" case 2 => "==" case _ => "==="
  }

  /** One group of four characters, padded or not. */
  function Group(a: char, b: char, c: char, d: char): Option<seq<Byte>> {
    match (ValueOf(a), ValueOf(b), ValueOf(c), ValueOf(d))
    case (Some(p), Some(q), Some(r), Some(s)) =>
      Some([Byte1(p, q), Byte2(q, r), Byte3(r, s)])
    case (Some(p), Some(q), Some(r), None) =>
      if d == '=' then Some([Byte1(p, q), Byte2(q, r)]) else None
    case (Some(p), Some(q), None, None) => if c == '=' && d == '=' then Some([Byte1(p, q)]) else None
    case _ => None
  }

  /** Groups of four characters as bytes; None where it is not the encoding of anything. */
  function Decode(text: string): Option<seq<Byte>> {
    if text == "" then Some([])
    else if |text| < 4 then None
    else
      match Group(text[0], text[1], text[2], text[3])
      case None => None
      case Some(bytes) =>
        if |bytes| < 3 && |text| > 4 then None
        else
          match Decode(text[4..])
          case None => None
          case Some(rest) => Some(bytes + rest)
  }

  ghost predicate EndsIn(text: string, n: int) {
    && 0 <= n <= |text| <= n + 2 && InAlphabet(text[..n]) && forall i :: n <= i < |text| ==> text[i] == '='
  }

  /** Whole groups of four, of characters in the alphabet but for at most two '=' at the end. */
  ghost predicate WellPadded(text: string) {
    |text| % 4 == 0 && exists n :: EndsIn(text, n)
  }

  lemma GroupDecodes(text: string)
    requires |text| == 4
    ensures Group(text[0], text[1], text[2], text[3]).Some? <==> exists n :: EndsIn(text, n)
    ensures Group(text[0], text[1], text[2], text[3]).Some? ==>
              (|Group(text[0], text[1], text[2], text[3]).value| == 3 <==> InAlphabet(text))
  {
    if Group(text[0], text[1], text[2], text[3]).Some? {
      var n := if ValueOf(text[2]).None? then 2 else if ValueOf(text[3]).None? then 3 else 4;
      assert EndsIn(text, n);
    }
    if n :| EndsIn(text, n) {
      assert forall i :: 0 <= i < n ==> text[..n][i] == text[i];
    }
  }

  lemma PaddedTail(text: string, n: int)
    requires |text| > 4
    ensures InAlphabet(text[..4]) && EndsIn(text[4..], n - 4) ==> EndsIn(text, n)
    ensures EndsIn(text, n) && |text| % 4 == 0 ==> InAlphabet(text[..4]) && EndsIn(text[4..], n - 4)
  {
    if InAlphabet(text[..4]) && EndsIn(text[4..], n - 4) {
      forall i | 0 <= i < n
        ensures ValueOf(text[i]).Some?
      {
        if i < 4 { assert text[..4][i] == text[i]; } else { assert text[4..][..n - 4][i - 4] == text[i]; }
      }
      forall i | n <= i < |text|
        ensures text[i] == '='
      {
        assert text[4..][i - 4] == text[i];
      }
    }
    if EndsIn(text, n) && |text| % 4 == 0 {
      assert forall i :: 0 <= i < n ==> text[..n][i] == text[i];
    }
  }

  /** Just those texts decode. */
  lemma {:induction false} DecodesWellPadded(text: string)
    ensures Decode(text).Some? <==> WellPadded(text)
    decreases |text|
  {
    if text == "" {
      assert EndsIn(text, 0);
    } else if |text| >= 4 {
      var first, rest := text[..4], text[4..];
      GroupDecodes(first);
      DecodesWellPadded(rest);
      if |text| == 4 {
        assert first == text && rest == "";
      } else {
        FirstGroupDecodes(text);
        PaddedNext(text);
      }
    }
  }

  lemma FirstGroupDecodes(text: string)
    requires |text| > 4
    ensures Decode(text).Some? <==> InAlphabet(text[..4]) && Decode(text[4..]).Some?
  {
    GroupDecodes(text[..4]);
    if InAlphabet(text[..4]) {
      assert EndsIn(text[..4], 4);
    }
  }

  lemma PaddedNext(text: string)
    requires |text| > 4
    ensures WellPadded(text) <==> InAlphabet(text[..4]) && WellPadded(text[4..])
  {
    if WellPadded(text) {
      var n :| EndsIn(text, n);
      PaddedTail(text, n);
      assert EndsIn(text[4..], n - 4);
    }
    if InAlphabet(text[..4]) && WellPadded(text[4..]) {
      var n :| EndsIn(text[4..], n);
      PaddedTail(text, n + 4);
    }
  }

  lemma GroupOfOne(p: nat, q: nat)
    requires p < 64 && q < 64
    ensures Group(Symbol(p), Symbol(q), '=', '=') == Some([Byte1(p, q)])
  {
    SymbolsDecode(p);
    SymbolsDecode(q);
  }

  lemma FirstByte(x: Byte, y: Byte)
    ensures Byte1(Bits1(x), Bits2(x, y)) == x
  {
    assert (x % 4 * 16 + y / 16) / 16 == x % 4;
  }

  lemma GroupOf(p: nat, q: nat, r: nat, s: nat)
    requires p < 64 && q < 64 && r < 64 && s < 64
    ensures Group(Symbol(p), Symbol(q), Symbol(r), Symbol(s)) == Some([Byte1(p, q), Byte2(q, r), Byte3(r, s)])
    ensures Group(Symbol(p), Symbol(q), Symbol(r), '=') == Some([Byte1(p, q), Byte2(q, r)])
  {
    SymbolsDecode(p);
    SymbolsDecode(q);
    SymbolsDecode(r);
    SymbolsDecode(s);
  }

  /** Decoding gives back the bytes, whatever their number. */
  lemma {:induction false} DecodesPadded(bytes: seq<Byte>)
    ensures Decode(Padded(bytes)) == Some(bytes)
  {
    if |bytes| == 0 {
      assert bytes == [];
    } else if |bytes| == 1 {
      assert bytes == [bytes[0]];
      DecodesOne(bytes[0]);
    } else if |bytes| == 2 {
      assert bytes == [bytes[0], bytes[1]];
      DecodesTwo(bytes[0], bytes[1]);
    } else {
      assert bytes == [bytes[0], bytes[1], bytes[2]] + bytes[3..];
      DecodesPadded(bytes[3..]);
      DecodesThree(bytes[0], bytes[1], bytes[2], bytes[3..]);
    }
  }

  lemma DecodesThree(x: Byte, y: Byte, z: Byte, rest: seq<Byte>)
    requires Decode(Padded(rest)) == Some(rest)
    ensures Decode([Symbol(Bits1(x)), Symbol(Bits2(x, y)), Symbol(Bits3(y, z)), Symbol(Bits4(z))] + Padded(rest)) ==
            Some([x, y, z] + rest)
  {
    GroupOf(Bits1(x), Bits2(x, y), Bits3(y, z), Bits4(z));
    BytesOfBits(x, y, z);
    DecodesNext([Symbol(Bits1(x)), Symbol(Bits2(x, y)), Symbol(Bits3(y, z)), Symbol(Bits4(z))], Padded(rest),
                [x, y, z], rest);
  }

  lemma DecodesNext(group: string, text: string, bytes: seq<Byte>, rest: seq<Byte>)
    requires |group| == 4 && Group(group[0], group[1], group[2], group[3]) == Some(bytes) && |bytes| == 3
    requires Decode(text) == Some(rest)
    ensures Decode(group + text) == Some(bytes + rest)
  {
    assert (group + text)[4..] == text;
  }

  lemma DecodesOne(x: Byte)
    ensures Decode(Padded([x])) == Some([x])
  {
    GroupOfOne(Bits1(x), Bits2(x, 0));
    FirstByte(x, 0);
    DecodesEnd(Padded([x]));
  }

  lemma DecodesTwo(x: Byte, y: Byte)
    ensures Decode(Padded([x, y])) == Some([x, y])
  {
    GroupOf(Bits1(x), Bits2(x, y), Bits3(y, 0), 0);
    BytesOfBits(x, y, 0);
    DecodesEnd(Padded([x, y]));
  }

  lemma DecodesEnd(text: string)
    requires |text| == 4
    ensures Decode(text) == Group(text[0], text[1], text[2], text[3])
  {
    assert text[4..] == "";
    var bytes := Group(text[0], text[1], text[2], text[3]);
    if bytes.Some? { assert bytes.value + [] == bytes.value; }
  }

  /** Characters before padding: nothing in the alphabet is stripped. */
  lemma {:induction false} StripsOnlyPadding(head: string, pads: string)
    requires head == "" || head[|head| - 1] != '='
    requires forall i :: 0 <= i < |pads| ==> pads[i] == '='
    ensures Stripped(head + pads) == head
  {
    if pads == "" {
      assert head + pads == head;
    } else {
      assert (head + pads)[..|head + pads| - 1] == head + pads[..|pads| - 1];
      StripsOnlyPadding(head, pads[..|pads| - 1]);
    }
  }

  /** The unpadded text: characters of the alphabet only, four for every three bytes. */
  function Body(bytes: seq<Byte>): (r: string)
    ensures InAlphabet(r)
    ensures |r| == |bytes| / 3 * 4 + (if |bytes| % 3 == 0 then 0 else |bytes| % 3 + 1)
  {
    if |bytes| == 0 then ""
    else if |bytes| == 1 then [Symbol(Bits1(bytes[0])), Symbol(Bits2(bytes[0], 0))]
    else if |bytes| == 2 then [Symbol(Bits1(bytes[0])), Symbol(Bits2(bytes[0], bytes[1])), Symbol(Bits3(bytes[1], 0))]
    else
      [Symbol(Bits1(bytes[0])), Symbol(Bits2(bytes[0], bytes[1])), Symbol(Bits3(bytes[1], bytes[2])),
       Symbol(Bits4(bytes[2]))]
      + Body(bytes[3..])
  }

  lemma {:induction false} PaddedIsBody(bytes: seq<Byte>)
    ensures Padded(bytes) == Body(bytes) + Padding(|Body(bytes)|)
  {
    if |bytes| >= 3 {
      PaddedIsBody(bytes[3..]);
      SamePadding(|Body(bytes[3..])|);
      FourThen(bytes);
    }
  }

  lemma FourThen(bytes: seq<Byte>)
    requires |bytes| >= 3
    ensures |Body(bytes)| == 4 + |Body(bytes[3..])| && Body(bytes) == Body(bytes)[..4] + Body(bytes[3..])
    ensures Padded(bytes) == Body(bytes)[..4] + Padded(bytes[3..])
  {
  }

  lemma SamePadding(length: nat)
    ensures Padding(length + 4) == Padding(length)
  {
  }

  /** What was stripped is put back from the length alone, whatever the number of bytes; and nothing else is
      stripped. */
  lemma PaddingIsRestored(bytes: seq<Byte>)
    ensures Encode(bytes) + Padding(|Encode(bytes)|) == Padded(bytes)
    ensures InAlphabet(Encode(bytes)) && Encode(bytes) == Body(bytes)
  {
    PaddedIsBody(bytes);
    var body := Body(bytes);
    if body != "" { assert ValueOf(body[|body| - 1]).Some?; }
    StripsOnlyPadding(body, Padding(|body|));
  }

  /** Encoding without padding and decoding with it restored is the identity on every list of bytes. */
  lemma RoundTrip(bytes: seq<Byte>)
    ensures Decode(Encode(bytes) + Padding(|Encode(bytes)|)) == Some(bytes)
  {
    PaddingIsRestored(bytes);
    DecodesPadded(bytes);
  }
}
