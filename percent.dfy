/**
 * Percent-encoding of text (section 2.1 of RFC 3986) over its UTF-8 bytes
 * (RFC 3629), as JavaScript's `encodeURIComponent` and `decodeURIComponent`
 * do it, and the byte serializer of application/x-www-form-urlencoded
 * (section 5.2 of the WHATWG URL Standard) that `URLSearchParams` applies.
 *
 * Dafny's `char` is a Unicode scalar value, so a lone surrogate (on which
 * `encodeURIComponent` throws) cannot occur here.
 */
module Percent {
  import opened Wrappers
  import opened Text

  type Byte = b: int | 0 <= b < 256

  // ---------------------------------------------------------------------------
  // UTF-8
  // ---------------------------------------------------------------------------

  /** The UTF-8 encoding of one scalar value. */
  function Utf8(c: char): (bs: seq<Byte>)
    ensures 1 <= |bs| <= 4
    ensures |bs| == 1 <==> c as int < 0x80
    ensures |bs| == 1 ==> bs[0] == c as int
  {
    var n := c as int;
    if n < 0x80 then [n]
    else if n < 0x800 then [0xC0 + n / 64, 0x80 + n % 64]
    else if n < 0x10000 then [0xE0 + n / 4096, 0x80 + (n / 64) % 64, 0x80 + n % 64]
    else [0xF0 + n / 262144, 0x80 + (n / 4096) % 64, 0x80 + (n / 64) % 64, 0x80 + n % 64]
  }

  predicate IsContinuation(b: Byte) {
    0x80 <= b < 0xC0
  }

  /** The length of the sequence a lead byte opens, or 0 when it opens none. */
  function SequenceLength(lead: Byte): nat {
    if lead < 0x80 then 1
    else if 0xC0 <= lead < 0xE0 then 2
    else if 0xE0 <= lead < 0xF0 then 3
    else if 0xF0 <= lead < 0xF8 then 4
    else 0
  }

  predicate IsScalar(n: int) {
    (0 <= n < 0xD800) || (0xE000 <= n < 0x110000)
  }

  /**
   * The scalar value a complete UTF-8 sequence stands for, or `None` when the
   * bytes are not the shortest encoding of a scalar value.
   */
  function Utf8Decode(bs: seq<Byte>): (r: Option<char>)
    ensures r.Some? ==> 1 <= |bs| <= 4 && SequenceLength(bs[0]) == |bs|
  {
    if |bs| == 1 && bs[0] < 0x80 then Some(bs[0] as char)
    else if |bs| == 2 && 0xC0 <= bs[0] < 0xE0 && IsContinuation(bs[1]) then
      var n := (bs[0] as int - 0xC0) * 64 + (bs[1] as int - 0x80);
      if n >= 0x80 then Some(n as char) else None
    else if |bs| == 3 && 0xE0 <= bs[0] < 0xF0 && IsContinuation(bs[1]) && IsContinuation(bs[2]) then
      var n := (bs[0] as int - 0xE0) * 4096 + (bs[1] as int - 0x80) * 64 + (bs[2] as int - 0x80);
      if n >= 0x800 && IsScalar(n) then Some(n as char) else None
    else if |bs| == 4 && 0xF0 <= bs[0] < 0xF8 && IsContinuation(bs[1]) && IsContinuation(bs[2])
            && IsContinuation(bs[3]) then
      var n := (bs[0] as int - 0xF0) * 262144 + (bs[1] as int - 0x80) * 4096 + (bs[2] as int - 0x80) * 64 + (bs[3] as int - 0x80);
      if 0x10000 <= n < 0x110000 then Some(n as char) else None
    else None
  }

  lemma Utf8RoundTrip2(c: char)
    requires 0x80 <= c as int < 0x800
    ensures SequenceLength(Utf8(c)[0]) == 2 && Utf8Decode(Utf8(c)) == Some(c)
  {
    var n := c as int;
    assert n == (n / 64) * 64 + n % 64;
  }

  lemma Utf8RoundTrip3(c: char)
    requires 0x800 <= c as int < 0x10000
    ensures SequenceLength(Utf8(c)[0]) == 3 && Utf8Decode(Utf8(c)) == Some(c)
  {
    var n := c as int;
    var q := n / 64;
    assert n == q * 64 + n % 64;
    assert q == (n / 4096) * 64 + q % 64;
  }

  lemma Utf8RoundTrip4(c: char)
    requires 0x10000 <= c as int
    ensures SequenceLength(Utf8(c)[0]) == 4 && Utf8Decode(Utf8(c)) == Some(c)
  {
    var n := c as int;
    var q := n / 64;
    var q2 := n / 4096;
    assert n == q * 64 + n % 64;
    assert q == q2 * 64 + q % 64;
    assert q2 == (n / 262144) * 64 + q2 % 64;
    assert (n / 4096) % 64 == q2 % 64;
  }

  /** Decoding the UTF-8 encoding of a scalar value gives it back. */
  lemma Utf8RoundTrip(c: char)
    ensures SequenceLength(Utf8(c)[0]) == |Utf8(c)|
    ensures Utf8Decode(Utf8(c)) == Some(c)
  {
    var n := c as int;
    if 0x80 <= n < 0x800 {
      Utf8RoundTrip2(c);
    } else if 0x800 <= n < 0x10000 {
      Utf8RoundTrip3(c);
    } else if n >= 0x10000 {
      Utf8RoundTrip4(c);
    }
  }

  // ---------------------------------------------------------------------------
  // Hexadecimal escapes
  // ---------------------------------------------------------------------------

  /** An upper-case hexadecimal digit. */
  function HexDigit(d: nat): (c: char)
    requires d < 16
  {
    if d < 10 then ('0' as int + d) as char else ('A' as int + d - 10) as char
  }

  /** The value of a hexadecimal digit of either case. */
  function HexValue(c: char): Option<nat> {
    if '0' <= c <= '9' then Some(c as int - '0' as int)
    else if 'A' <= c <= 'F' then Some(c as int - 'A' as int + 10)
    else if 'a' <= c <= 'f' then Some(c as int - 'a' as int + 10)
    else None
  }

  /** `%XX` for one byte */
  function Escape(b: Byte): (e: string)
    ensures |e| == 3 && e[0] == '%'
  {
    ['%', HexDigit(b / 16), HexDigit(b % 16)]
  }

  function Escapes(bs: seq<Byte>): (e: string)
    ensures |e| == 3 * |bs|
  {
    if bs == [] then [] else Escape(bs[0]) + Escapes(bs[1..])
  }

  /** The byte of the escape at the start of `s`, if `s` starts with one. */
  function ReadEscape(s: string): Option<Byte> {
    if |s| < 3 || s[0] != '%' then None
    else match (HexValue(s[1]), HexValue(s[2]))
      case (Some(hi), Some(lo)) => if hi < 16 && lo < 16 then Some(hi * 16 + lo) else None
      case _ => None
  }

  /** The bytes of the `k` escapes at the start of `s`, if there are `k` of them. */
  function ReadEscapes(s: string, k: nat): (r: Option<seq<Byte>>)
    ensures r.Some? ==> |r.value| == k && 3 * k <= |s|
  {
    if k == 0 then Some([])
    else match ReadEscape(s)
      case None => None
      case Some(b) =>
        match ReadEscapes(s[3..], k - 1)
        case None => None
        case Some(rest) => Some([b] + rest)
  }

  lemma EscapeRoundTrip(b: Byte, rest: string)
    ensures ReadEscape(Escape(b) + rest) == Some(b)
  {
    var s := Escape(b) + rest;
    assert s[1] == HexDigit(b / 16) && s[2] == HexDigit(b % 16);
  }

  lemma {:induction false} ReadEscapesRoundTrip(bs: seq<Byte>, rest: string, k: nat)
    requires k <= |bs|
    ensures ReadEscapes(Escapes(bs) + rest, k) == Some(bs[..k])
  {
    if k > 0 {
      var s := Escapes(bs) + rest;
      assert s == Escape(bs[0]) + (Escapes(bs[1..]) + rest);
      EscapeRoundTrip(bs[0], Escapes(bs[1..]) + rest);
      assert s[3..] == Escapes(bs[1..]) + rest;
      ReadEscapesRoundTrip(bs[1..], rest, k - 1);
      assert [bs[0]] + bs[1..][..k - 1] == bs[..k];
    }
  }

  // ---------------------------------------------------------------------------
  // Encoding and decoding
  // ---------------------------------------------------------------------------

  /** `encodeURIComponent`'s unescaped set: A-Z a-z 0-9 - _ . ! ~ * ' ( ) */
  predicate IsUriUnreserved(c: char) {
    IsAsciiLetter(c) || IsAsciiDigit(c) || c == '-' || c == '_' || c == '.' || c == '!'
    || c == '~' || c == '*' || c == '\'' || c == '(' || c == ')'
  }

  /** One character, kept when `safe` allows it and escaped byte by byte otherwise. */
  function EncodeChar(safe: char -> bool, c: char): string {
    if safe(c) then [c] else Escapes(Utf8(c))
  }

  /** Percent-encoding with the unescaped set `safe`. */
  function EncodeWith(safe: char -> bool, s: string): string {
    if s == [] then [] else EncodeChar(safe, s[0]) + EncodeWith(safe, s[1..])
  }

  /** `encodeURIComponent` */
  function EncodeUriComponent(s: string): string {
    EncodeWith(IsUriUnreserved, s)
  }

  /**
   * `decodeURIComponent`: every escape, and every run of escapes forming one
   * UTF-8 sequence, becomes its character; `None` stands for the `URIError`
   * thrown on a malformed escape or sequence.
   */
  function DecodeUriComponent(s: string): Option<string>
    decreases |s|
  {
    if s == [] then Some([])
    else if s[0] != '%' then
      match DecodeUriComponent(s[1..])
      case None => None
      case Some(rest) => Some([s[0]] + rest)
    else
      match ReadEscape(s)
      case None => None
      case Some(lead) =>
        var n := SequenceLength(lead);
        if n == 0 then None
        else match ReadEscapes(s, n)
          case None => None
          case Some(bs) =>
            match Utf8Decode(bs)
            case None => None
            case Some(c) =>
              match DecodeUriComponent(s[3 * n..])
              case None => None
              case Some(rest) => Some([c] + rest)
  }

  /** Decoding one encoded character in front of the rest. */
  lemma DecodeEncodedChar(safe: char -> bool, c: char, rest: string)
    requires !safe('%')
    ensures DecodeUriComponent(EncodeChar(safe, c) + rest) ==
      match DecodeUriComponent(rest)
      case None => None
      case Some(r) => Some([c] + r)
  {
    var s := EncodeChar(safe, c) + rest;
    if safe(c) {
      assert s[0] == c && s[1..] == rest;
    } else {
      var bs := Utf8(c);
      Utf8RoundTrip(c);
      ReadEscapesRoundTrip(bs, rest, 1);
      ReadEscapesRoundTrip(bs, rest, |bs|);
      assert bs[..|bs|] == bs;
      assert s[3 * |bs|..] == rest;
    }
  }

  /** Decoding undoes encoding, for any unescaped set that leaves `%` escaped. */
  lemma {:induction false} DecodeEncode(safe: char -> bool, s: string)
    requires !safe('%')
    ensures DecodeUriComponent(EncodeWith(safe, s)) == Some(s)
  {
    if s != [] {
      DecodeEncode(safe, s[1..]);
      DecodeEncodedChar(safe, s[0], EncodeWith(safe, s[1..]));
      assert [s[0]] + s[1..] == s;
    }
  }

  /** `decodeURIComponent(encodeURIComponent(s)) === s` */
  lemma UriComponentRoundTrip(s: string)
    ensures DecodeUriComponent(EncodeUriComponent(s)) == Some(s)
  {
    DecodeEncode(IsUriUnreserved, s);
  }

  /** Every character of an encoding is allowed by `safe` or belongs to an escape. */
  lemma {:induction false} EncodedChars(safe: char -> bool, s: string)
    ensures forall c :: c in EncodeWith(safe, s) ==> safe(c) || c == '%' || IsAsciiDigit(c) || 'A' <= c <= 'F'
  {
    if s != [] {
      EncodedChars(safe, s[1..]);
      if !safe(s[0]) {
        EscapesChars(Utf8(s[0]));
      }
    }
  }

  lemma {:induction false} EscapesChars(bs: seq<Byte>)
    ensures forall c :: c in Escapes(bs) ==> c == '%' || IsAsciiDigit(c) || 'A' <= c <= 'F'
  {
    if bs != [] {
      EscapesChars(bs[1..]);
    }
  }

  /** What `encodeURIComponent` outputs contains neither `=`, nor `;`, nor a space. */
  lemma UriComponentHasNoDelimiters(s: string)
    ensures '=' !in EncodeUriComponent(s) && ';' !in EncodeUriComponent(s) && ' ' !in EncodeUriComponent(s)
  {
    EncodedChars(IsUriUnreserved, s);
  }

  // ---------------------------------------------------------------------------
  // application/x-www-form-urlencoded (section 5.2 of the WHATWG URL Standard)
  // ---------------------------------------------------------------------------

  /** The bytes the urlencoded serializer leaves as they are: * - . 0-9 A-Z _ a-z */
  predicate IsFormSafe(c: char) {
    IsAsciiLetter(c) || IsAsciiDigit(c) || c == '*' || c == '-' || c == '.' || c == '_'
  }

  predicate IsFormSafeOrSpace(c: char) {
    IsFormSafe(c) || c == ' '
  }

  function SpaceToPlus(s: string): (r: string)
    ensures |r| == |s|
    ensures forall i :: 0 <= i < |s| ==> r[i] == (if s[i] == ' ' then '+' else s[i])
  {
    if s == [] then [] else [if s[0] == ' ' then '+' else s[0]] + SpaceToPlus(s[1..])
  }

  function PlusToSpace(s: string): (r: string)
    ensures |r| == |s|
    ensures forall i :: 0 <= i < |s| ==> r[i] == (if s[i] == '+' then ' ' else s[i])
  {
    if s == [] then [] else [if s[0] == '+' then ' ' else s[0]] + PlusToSpace(s[1..])
  }

  /** The urlencoded byte serializer: space becomes `+`, safe bytes stay, the rest is escaped. */
  function FormComponent(s: string): string {
    SpaceToPlus(EncodeWith(IsFormSafeOrSpace, s))
  }

  /** One serialized `name=value` pair. */
  function FormPiece(pair: (string, string)): string {
    FormComponent(pair.0) + "=" + FormComponent(pair.1)
  }

  function FormPieces(pairs: seq<(string, string)>): (pieces: seq<string>)
    ensures |pieces| == |pairs|
  {
    seq(|pairs|, i requires 0 <= i < |pairs| => FormPiece(pairs[i]))
  }

  /** `name=value` pairs joined by `&`, each side serialized (`URLSearchParams.toString`). */
  function FormSerialize(pairs: seq<(string, string)>): string {
    Join(FormPieces(pairs), "&")
  }

  /** The decoding that reads a serialized component back: `+` is a space, then escapes are decoded. */
  function FormComponentDecode(s: string): Option<string> {
    DecodeUriComponent(PlusToSpace(s))
  }

  /** A serialized component holds only safe characters, `+` and escapes: no `&` and no `=`. */
  lemma FormComponentChars(s: string)
    ensures forall c :: c in FormComponent(s) ==> IsFormSafe(c) || c == '+' || c == '%'
  {
    var e := EncodeWith(IsFormSafeOrSpace, s);
    EncodedChars(IsFormSafeOrSpace, s);
    forall c | c in FormComponent(s)
      ensures IsFormSafe(c) || c == '+' || c == '%'
    {
      var i :| 0 <= i < |FormComponent(s)| && FormComponent(s)[i] == c;
      assert e[i] in e;
    }
  }

  /** Reading a serialized component back gives the original text. */
  lemma FormComponentRoundTrip(s: string)
    ensures FormComponentDecode(FormComponent(s)) == Some(s)
  {
    var e := EncodeWith(IsFormSafeOrSpace, s);
    EncodedChars(IsFormSafeOrSpace, s);
    assert PlusToSpace(SpaceToPlus(e)) == e by {
      forall i | 0 <= i < |e|
        ensures PlusToSpace(SpaceToPlus(e))[i] == e[i]
      {
        assert e[i] in e;
      }
    }
    DecodeEncode(IsFormSafeOrSpace, s);
  }

  /** Reads one `name=value` piece; a piece without `=` is a name with an empty value. */
  function FormParsePair(piece: string): Option<(string, string)> {
    var i := IndexOf(piece, '=');
    var value := if i < |piece| then piece[i + 1..] else "";
    match FormComponentDecode(piece[..i])
    case None => None
    case Some(name) =>
      match FormComponentDecode(value)
      case None => None
      case Some(v) => Some((name, v))
  }

  function FormParsePieces(pieces: seq<string>): Option<seq<(string, string)>> {
    if pieces == [] then Some([])
    else if pieces[0] == "" then FormParsePieces(pieces[1..])
    else
      match FormParsePair(pieces[0])
      case None => None
      case Some(pair) =>
        match FormParsePieces(pieces[1..])
        case None => None
        case Some(rest) => Some([pair] + rest)
  }

  /**
   * The urlencoded parser of section 5.1 of the WHATWG URL Standard,
   * restricted to well-formed escapes: split on `&`, skip empty pieces, cut
   * each at its first `=`, decode both sides. Where the standard keeps a
   * malformed `%` escape as it is, this parser gives `None`; every body
   * `FormSerialize` produces is well formed, which is all the round trip needs.
   */
  function FormParse(body: string): Option<seq<(string, string)>> {
    FormParsePieces(Split(body, "&"))
  }

  /** A serialized piece is never empty and holds no `&`. */
  lemma FormPieceChars(pair: (string, string))
    ensures FormPiece(pair) != "" && '&' !in FormPiece(pair)
  {
    var piece := FormPiece(pair);
    FormComponentChars(pair.0);
    FormComponentChars(pair.1);
    assert piece[|FormComponent(pair.0)|] == '=';
    forall c | c in piece
      ensures c != '&'
    {
      assert c in FormComponent(pair.0) || c == '=' || c in FormComponent(pair.1);
    }
  }

  /** A piece is cut at the first `=`, so a name free of `=` comes out whole. */
  lemma FormParseCut(name: string, value: string)
    requires '=' !in name
    ensures FormParsePair(name + "=" + value)
            == match FormComponentDecode(name)
               case None => None
               case Some(n) =>
                 match FormComponentDecode(value)
                 case None => None
                 case Some(v) => Some((n, v))
  {
    var piece := name + "=" + value;
    IndexOfAfter(name, '=', "=" + value);
    assert piece == name + ("=" + value);
    assert piece[..|name|] == name;
    assert piece[|name| + 1..] == value;
  }

  /** A serialized piece is cut at its own `=`, and each side reads back. */
  lemma FormPieceRoundTrip(pair: (string, string))
    ensures FormParsePair(FormPiece(pair)) == Some(pair)
  {
    FormComponentChars(pair.0);
    FormParseCut(FormComponent(pair.0), FormComponent(pair.1));
    FormComponentRoundTrip(pair.0);
    FormComponentRoundTrip(pair.1);
  }

  lemma {:induction false} FormParsePiecesRoundTrip(pairs: seq<(string, string)>)
    ensures FormParsePieces(FormPieces(pairs)) == Some(pairs)
  {
    if pairs != [] {
      FormPiecesCons(pairs);
      FormPieceChars(pairs[0]);
      FormPieceRoundTrip(pairs[0]);
      FormParsePiecesRoundTrip(pairs[1..]);
      FormParsePiecesCons(FormPiece(pairs[0]), FormPieces(pairs[1..]), pairs[0], pairs[1..]);
      assert [pairs[0]] + pairs[1..] == pairs;
    }
  }

  lemma FormPiecesCons(pairs: seq<(string, string)>)
    requires pairs != []
    ensures FormPieces(pairs) == [FormPiece(pairs[0])] + FormPieces(pairs[1..])
  {
  }

  /** A non-empty first piece is parsed, then the rest after it. */
  lemma FormParsePiecesCons(piece: string, rest: seq<string>, pair: (string, string), r: seq<(string, string)>)
    requires piece != "" && FormParsePair(piece) == Some(pair) && FormParsePieces(rest) == Some(r)
    ensures FormParsePieces([piece] + rest) == Some([pair] + r)
  {
    assert ([piece] + rest)[1..] == rest;
  }

  /** Parsing a serialized body gives back the pairs, in order. */
  lemma FormRoundTrip(pairs: seq<(string, string)>)
    ensures FormParse(FormSerialize(pairs)) == Some(pairs)
  {
    var pieces := FormPieces(pairs);
    if pairs == [] {
      assert Split("", "&") == [""];
    } else {
      forall k | 0 <= k < |pieces|
        ensures "&"[0] !in pieces[k]
      {
        FormPieceChars(pairs[k]);
      }
      SplitJoin(pieces, "&");
    }
    FormParsePiecesRoundTrip(pairs);
  }
}
