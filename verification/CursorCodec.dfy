/** The unpadded URL-safe alphabet of RFC 4648, section 5, in which log cursors travel. */
module CursorCodec {
  import opened Options

  type Byte = n: nat | n < 256

  function Letter(v: nat): char
    requires v < 64
  {
    if v < 26 then ('A' as int + v) as char
    else if v < 52 then ('a' as int + (v - 26)) as char
    else if v < 62 then ('0' as int + (v - 52)) as char
    else if v == 62 then '-' else '_'
  }

  /** The decoder accepts both alphabets; every other character has no index and is skipped. */
  function Index(c: char): Option<nat> {
    if 'A' <= c <= 'Z' then Some(c as int - 'A' as int)
    else if 'a' <= c <= 'z' then Some(c as int - 'a' as int + 26)
    else if '0' <= c <= '9' then Some(c as int - '0' as int + 52)
    else if c == '-' || c == '+' then Some(62)
    else if c == '_' || c == '/' then Some(63) else None
  }

  lemma LetterIndex(v: nat)
    requires v < 64
    ensures Index(Letter(v)) == Some(v) && Letter(v) != '='
  {
  }

  /** Three bytes to four letters, and padding after a short last group. */
  function Encode(b: seq<Byte>): string {
    if |b| == 0 then ""
    else if |b| == 1 then [Letter(b[0] / 4), Letter(b[0] % 4 * 16), '=', '=']
    else if |b| == 2 then [Letter(b[0] / 4), Letter(b[0] % 4 * 16 + b[1] / 16), Letter(b[1] % 16 * 4), '=']
    else
      [Letter(b[0] / 4), Letter(b[0] % 4 * 16 + b[1] / 16), Letter(b[1] % 16 * 4 + b[2] / 64), Letter(b[2] % 64)]
      + Encode(b[3..])
  }

  /** `rstrip("=")`. */
  function Unpadded(s: string): string {
    if s != "" && s[|s| - 1] == '=' then Unpadded(s[..|s| - 1]) else s
  }

  /** `"=" * (-len(s) % 4)`. */
  function Padding(s: string): string {
    seq(-|s| % 4, _ => '=')
  }

  /** The base64 decoder's loop: position in the group of four, bits left over, padding seen in this group.  A
      complete padding ends the input; an incomplete group is an error. */
  function DecodeFrom(s: string, quad: nat, left: nat, pads: nat): Option<seq<Byte>>
    requires quad < 4 && left < 64
    decreases |s|
  {
    if s == "" then (if quad == 0 then Some([]) else None)
    else if s[0] == '=' then
      if quad < 2 then DecodeFrom(s[1..], quad, left, pads)
      else if quad + pads + 1 >= 4 then Some([])
      else DecodeFrom(s[1..], quad, left, pads + 1)
    else
      match Index(s[0])
      case None => DecodeFrom(s[1..], quad, left, pads)
      case Some(v) =>
        if quad == 0 then DecodeFrom(s[1..], 1, v % 64, 0)
        else if quad == 1 then Emit((left * 4 + v / 16) % 256, DecodeFrom(s[1..], 2, v % 16, 0))
        else if quad == 2 then Emit((left * 16 + v / 4) % 256, DecodeFrom(s[1..], 3, v % 4, 0))
        else Emit((left * 64 + v) % 256, DecodeFrom(s[1..], 0, 0, 0))
  }

  function Emit(x: Byte, rest: Option<seq<Byte>>): Option<seq<Byte>> {
    match rest
    case None => None
    case Some(bytes) => Some([x] + bytes)
  }

  function EncodeCursor(json: seq<Byte>): string {
    Unpadded(Encode(json))
  }

  function DecodeCursor(s: string): Option<seq<Byte>> {
    DecodeFrom(s + Padding(s), 0, 0, 0)
  }

  // ---------------------------------------------------------------- proofs

  /** What the encoder puts before the padding. */
  function Body(b: seq<Byte>): string {
    if |b| == 0 then ""
    else if |b| == 1 then [Letter(b[0] / 4), Letter(b[0] % 4 * 16)]
    else if |b| == 2 then [Letter(b[0] / 4), Letter(b[0] % 4 * 16 + b[1] / 16), Letter(b[1] % 16 * 4)]
    else
      [Letter(b[0] / 4), Letter(b[0] % 4 * 16 + b[1] / 16), Letter(b[1] % 16 * 4 + b[2] / 64), Letter(b[2] % 64)]
      + Body(b[3..])
  }

  predicate UrlSafe(c: char) {
    'A' <= c <= 'Z' || 'a' <= c <= 'z' || '0' <= c <= '9' || c == '-' || c == '_'
  }

  lemma LettersAreSafe(v: nat)
    requires v < 64
    ensures UrlSafe(Letter(v))
  {
  }

  lemma {:induction false} BodyIsSafe(b: seq<Byte>)
    ensures forall i :: 0 <= i < |Body(b)| ==> UrlSafe(Body(b)[i])
    decreases |b|
  {
    hide UrlSafe, Letter;
    forall v: nat | v < 64 ensures UrlSafe(Letter(v)) {
      LettersAreSafe(v);
    }
    if |b| >= 3 {
      BodyIsSafe(b[3..]);
    }
  }

  lemma {:induction false} EncodeIsBodyAndPadding(b: seq<Byte>)
    ensures Encode(b) == Body(b) + Padding(Body(b))
    decreases |b|
  {
    hide Letter;
    if |b| >= 3 {
      EncodeIsBodyAndPadding(b[3..]);
      assert |Body(b)| == |Body(b[3..])| + 4;
      assert Padding(Body(b)) == Padding(Body(b[3..]));
    } else if |b| == 2 {
      assert Padding(Body(b)) == ['='];
    } else if |b| == 1 {
      assert Padding(Body(b)) == ['=', '='];
    }
  }

  lemma SafeIsNoPadding(c: char)
    requires UrlSafe(c)
    ensures c != '='
  {
  }

  lemma {:induction false} PaddingStripped(body: string, pads: string)
    requires body == "" || body[|body| - 1] != '='
    requires forall i :: 0 <= i < |pads| ==> pads[i] == '='
    ensures Unpadded(body + pads) == body
    decreases |pads|
  {
    if pads == "" {
      assert body + pads == body;
    } else {
      PaddingStripped(body, pads[..|pads| - 1]);
      assert (body + pads)[..|body + pads| - 1] == body + pads[..|pads| - 1];
    }
  }

  lemma Whole(v: nat)
    requires v < 64
    ensures v % 64 == v
  {
  }

  lemma {:induction false} FirstLetter(v: nat, s: string, quad: nat, left: nat)
    requires v < 64 && quad < 4 && left < 64
    ensures DecodeFrom([Letter(v)] + s, quad, left, 0) ==
            if quad == 0 then DecodeFrom(s, 1, v, 0)
            else if quad == 1 then Emit((left * 4 + v / 16) % 256, DecodeFrom(s, 2, v % 16, 0))
            else if quad == 2 then Emit((left * 16 + v / 4) % 256, DecodeFrom(s, 3, v % 4, 0))
            else Emit((left * 64 + v) % 256, DecodeFrom(s, 0, 0, 0))
  {
    LetterIndex(v);
    hide Letter, Index, Emit;
    var t := [Letter(v)] + s;
    Whole(v);
    assert t[1..] == s && t[0] == Letter(v);
  }

  lemma Regroup(a: char, b: char, c: char, d: char, s: string)
    ensures [a, b, c, d] + s == [a] + ([b] + ([c] + ([d] + s)))
    ensures [a, b, c, d] == [a] + ([b] + ([c] + [d])) == [a] + ([b] + [c, d])
  {
  }

  lemma {:induction false} GroupDecodes(x: Byte, y: Byte, z: Byte, s: string)
    ensures DecodeFrom([Letter(x / 4), Letter(x % 4 * 16 + y / 16), Letter(y % 16 * 4 + z / 64), Letter(z % 64)] + s,
                       0, 0, 0)
            == Emit(x, Emit(y, Emit(z, DecodeFrom(s, 0, 0, 0))))
  {
    hide DecodeFrom, Letter, Emit;
    var a, b, c, d := x / 4, x % 4 * 16 + y / 16, y % 16 * 4 + z / 64, z % 64;
    Regroup(Letter(a), Letter(b), Letter(c), Letter(d), s);
    var s3 := [Letter(d)] + s;
    var s2 := [Letter(c)] + s3;
    var s1 := [Letter(b)] + s2;
    FirstLetter(a, s1, 0, 0);
    FirstLetter(b, s2, 1, a);
    FirstLetter(c, s3, 2, b % 16);
    FirstLetter(d, s, 3, c % 4);
    Bits(x, y, z);
  }

  /** The bytes out of the four letters' values. */
  lemma Bits(x: Byte, y: Byte, z: Byte)
    ensures var a, b, c, d := x / 4, x % 4 * 16 + y / 16, y % 16 * 4 + z / 64, z % 64;
            && a < 64 && b < 64 && c < 64 && d < 64
            && (a * 4 + b / 16) % 256 == x && (b % 16 * 16 + c / 4) % 256 == y && (c % 4 * 64 + d) % 256 == z
  {
  }

  lemma PaddingEnds()
    ensures DecodeFrom(['=', '='], 2, 0, 0) == Some([]) && DecodeFrom(['='], 3, 0, 0) == Some([])
  {
  }

  lemma Emitted(x: Byte, y: Byte)
    ensures Emit(x, Some([])) == Some([x]) && Emit(x, Emit(y, Some([]))) == Some([x, y])
  {
    assert [x] + [] == [x];
    assert [y] + [] == [y];
    assert [x] + [y] == [x, y];
  }

  lemma OneByteDecodes(x: Byte)
    ensures DecodeFrom([Letter(x / 4), Letter(x % 4 * 16), '=', '='], 0, 0, 0) == Some([x])
  {
    hide Letter, DecodeFrom, Emit;
    PaddingEnds();
    Emitted(x, 0);
    var a := x / 4;
    Regroup(Letter(a), Letter(x % 4 * 16), '=', '=', "");
    FirstLetter(a, [Letter(x % 4 * 16)] + ['=', '='], 0, 0);
    FirstLetter(x % 4 * 16, ['=', '='], 1, a);
  }

  lemma TwoBytesDecode(x: Byte, y: Byte)
    ensures DecodeFrom([Letter(x / 4), Letter(x % 4 * 16 + y / 16), Letter(y % 16 * 4), '='], 0, 0, 0) == Some([x, y])
  {
    hide Letter, DecodeFrom, Emit;
    PaddingEnds();
    Emitted(x, y);
    var a, b, c := x / 4, x % 4 * 16 + y / 16, y % 16 * 4;
    Regroup(Letter(a), Letter(b), Letter(c), '=', "");
    var s2 := [Letter(c)] + ['='];
    var s1 := [Letter(b)] + s2;
    FirstLetter(a, s1, 0, 0);
    FirstLetter(b, s2, 1, a);
    FirstLetter(c, ['='], 2, b % 16);
    Bits(x, y, 0);
  }

  lemma {:induction false} EncodedDecodes(b: seq<Byte>)
    ensures DecodeFrom(Encode(b), 0, 0, 0) == Some(b)
    decreases |b|
  {
    hide DecodeFrom, Letter;
    if |b| == 0 {
      NothingDecodes();
    } else if |b| == 1 {
      OneByteDecodes(b[0]);
      assert [b[0]] == b;
    } else if |b| == 2 {
      TwoBytesDecode(b[0], b[1]);
      assert [b[0], b[1]] == b;
    } else {
      GroupDecodes(b[0], b[1], b[2], Encode(b[3..]));
      EncodedDecodes(b[3..]);
      assert [b[0]] + ([b[1]] + ([b[2]] + b[3..])) == b;
    }
  }

  lemma NothingDecodes()
    ensures DecodeFrom("", 0, 0, 0) == Some([])
  {
  }

  /** Every cursor decodes to what was encoded, and travels as letters of the URL-safe alphabet only. */
  lemma CursorRoundTrip(json: seq<Byte>)
    ensures DecodeCursor(EncodeCursor(json)) == Some(json)
    ensures forall i :: 0 <= i < |EncodeCursor(json)| ==> UrlSafe(EncodeCursor(json)[i])
  {
    hide DecodeFrom, Letter, Body, Encode, UrlSafe;
    EncodeIsBodyAndPadding(json);
    BodyIsSafe(json);
    forall c | UrlSafe(c) ensures c != '=' {
      SafeIsNoPadding(c);
    }
    PaddingStripped(Body(json), Padding(Body(json)));
    EncodedDecodes(json);
  }

  /** Test vectors of RFC 4648, section 10, without padding, and one with the two letters of the URL-safe alphabet. */
  lemma Vectors()
    ensures EncodeCursor([0x66]) == "Zg" && EncodeCursor([0x66, 0x6f]) == "Zm8"
    ensures EncodeCursor([0x66, 0x6f, 0x6f, 0x62, 0x61, 0x72]) == "Zm9vYmFy"
    ensures EncodeCursor([0xfb, 0xff, 0xfe]) == "-__-"
  {
    ShortVectors();
    FoobarEncodes();
    hide Encode;
    PaddingStripped("Zg", "==");
    PaddingStripped("Zm8", "=");
    PaddingStripped("Zm9vYmFy", "");
    PaddingStripped("-__-", "");
  }

  lemma ShortVectors()
    ensures Encode([0x66]) == "Zg" + "==" && Encode([0x66, 0x6f]) == "Zm8" + "="
    ensures Encode([0xfb, 0xff, 0xfe]) == "-__-" + ""
  {
  }

  lemma FoobarEncodes()
    ensures Encode([0x66, 0x6f, 0x6f, 0x62, 0x61, 0x72]) == "Zm9vYmFy" + ""
  {
    var foobar: seq<Byte> := [0x66, 0x6f, 0x6f, 0x62, 0x61, 0x72];
    assert foobar[3..] == [0x62, 0x61, 0x72];
    assert Encode([0x62, 0x61, 0x72]) == "YmFy";
  }

  function Place(quad: nat, n: nat): (place: nat)
    ensures place < 4
  {
    (quad + n) % 4
  }

  lemma NextPlace(quad: nat, n: nat)
    requires quad < 4
    ensures Place(quad, 0) == quad
    ensures n > 0 ==> Place(Place(quad, 1), n - 1) == Place(quad, n)
  {
  }

  lemma {:induction false} LetterMoves(c: char, s: string, quad: nat, left: nat) returns (next: nat)
    requires quad < 4 && left < 64 && UrlSafe(c)
    ensures next < 64
    ensures DecodeFrom([c] + s, quad, left, 0).Some? <==> DecodeFrom(s, Place(quad, 1), next, 0).Some?
  {
    var v := Index(c).value;
    next := if quad == 0 then v else if quad == 1 then v % 16 else if quad == 2 then v % 4 else 0;
    assert Index(c).Some? && v < 64 && v % 64 == v && c != '=';
    hide Index, UrlSafe;
    assert ([c] + s)[1..] == s && ([c] + s)[0] == c;
  }

  /** Letters before `rest` only move the place in the group of four. */
  lemma {:induction false} LettersMove(s: string, rest: string, quad: nat, left: nat) returns (later: nat)
    requires quad < 4 && left < 64 && forall i :: 0 <= i < |s| ==> UrlSafe(s[i])
    ensures later < 64
    ensures DecodeFrom(s + rest, quad, left, 0).Some? <==> DecodeFrom(rest, Place(quad, |s|), later, 0).Some?
    decreases |s|
  {
    hide DecodeFrom, UrlSafe, Place;
    NextPlace(quad, |s|);
    if s == "" {
      assert s + rest == rest;
      later := left;
    } else {
      var next := LetterMoves(s[0], s[1..] + rest, quad, left);
      assert s + rest == [s[0]] + (s[1..] + rest);
      later := LettersMove(s[1..], rest, Place(quad, 1), next);
    }
  }

  /** A text of letters decodes unless its last group is a single letter. */
  lemma {:induction false} DecodesIff(s: string)
    requires forall i :: 0 <= i < |s| ==> UrlSafe(s[i])
    ensures DecodeCursor(s).Some? <==> |s| % 4 != 1
  {
    var left := LettersMove(s, Padding(s), 0, 0);
    PaddingDecides(|s| % 4, left);
    hide DecodeFrom, UrlSafe;
    var n := |s| % 4;
    assert Padding(s) == if n == 0 then "" else if n == 1 then "===" else if n == 2 then "==" else "=";
  }

  lemma PaddingDecides(quad: nat, left: nat)
    requires quad < 4 && left < 64
    ensures var pads := if quad == 0 then "" else if quad == 1 then "===" else if quad == 2 then "==" else "=";
            DecodeFrom(pads, quad, left, 0).Some? <==> quad != 1
  {
    assert "==="[1..] == "==" && "=="[1..] == "=" && "="[1..] == "";
  }

  /** At any point characters of neither alphabet are skipped, and the two letters of the standard alphabet read as the
      URL-safe ones. */
  lemma {:induction false} OthersAreSkipped(c: char, s: string, quad: nat, left: nat, pads: nat)
    requires quad < 4 && left < 64
    ensures !UrlSafe(c) && c !in {'+', '/', '='} ==>
              DecodeFrom([c] + s, quad, left, pads) == DecodeFrom(s, quad, left, pads)
    ensures DecodeFrom(['+'] + s, quad, left, pads) == DecodeFrom(['-'] + s, quad, left, pads)
    ensures DecodeFrom(['/'] + s, quad, left, pads) == DecodeFrom(['_'] + s, quad, left, pads)
  {
    assert ([c] + s)[1..] == (['+'] + s)[1..] == (['-'] + s)[1..] == (['/'] + s)[1..] == (['_'] + s)[1..] == s;
    hide Emit;
  }
}
