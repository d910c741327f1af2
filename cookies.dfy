/**
 * The cookie adapter the browser Supabase client is given in
 * app/lib/supabase/client.ts: `getAll` reads the `Cookie` string (pairs
 * separated by "; ", section 4.2.1 of RFC 6265) and `setAll` writes one
 * `Set-Cookie`-style string per cookie (section 5.2 of RFC 6265, with the
 * SameSite attribute of the RFC 6265bis draft). Values are percent-encoded
 * with `encodeURIComponent` (section 2.1 of RFC 3986).
 */
module Cookies {
  import opened Wrappers
  import opened Text
  import opened Percent

  const PairSeparator := "; "
  const NameValueSeparator := "="

  datatype Cookie = Cookie(name: string, value: string)

  // ---------------------------------------------------------------------------
  // getAll (lines 15-20)
  // ---------------------------------------------------------------------------

  /**
   * `const [name, ...rest] = cookie.split('=')` and
   * `decodeURIComponent(rest.join('='))`: the value is `None` when the decoder
   * throws a URIError.
   */
  function ParsePiece(piece: string): (string, Option<string>) {
    var parts := Split(piece, NameValueSeparator);
    (parts[0], DecodeUriComponent(Join(parts[1..], NameValueSeparator)))
  }

  /** The `.map(...)`: every piece is decoded, and one that throws makes `getAll` throw. */
  function DecodeAll(pieces: seq<string>): (r: Option<seq<Cookie>>)
    ensures r.Some? ==> |r.value| == |pieces|
  {
    if pieces == [] then Some([])
    else
      var parsed := ParsePiece(pieces[0]);
      var rest := DecodeAll(pieces[1..]);
      if parsed.1.Some? && rest.Some? then Some([Cookie(parsed.0, parsed.1.value)] + rest.value) else None
  }

  /** A single piece decodes to a single cookie when its value decodes. */
  lemma DecodeOne(piece: string)
    requires ParsePiece(piece).1.Some?
    ensures DecodeAll([piece]) == Some([Cookie(ParsePiece(piece).0, ParsePiece(piece).1.value)])
  {
    var c := Cookie(ParsePiece(piece).0, ParsePiece(piece).1.value);
    assert [piece][0] == piece;
    assert [piece][1..] == [];
    assert DecodeAll([]) == Some([]);
    assert [c] + [] == [c];
  }

  /** `.filter(cookie => cookie.name)` */
  function NamedOnly(cs: seq<Cookie>): (r: seq<Cookie>)
    ensures forall i :: 0 <= i < |r| ==> r[i].name != []
    ensures (forall i :: 0 <= i < |cs| ==> cs[i].name != []) ==> r == cs
  {
    if cs == [] then []
    else (if cs[0].name == [] then [] else [cs[0]]) + NamedOnly(cs[1..])
  }

  /** `getAll()` on the `document.cookie` string; `None` when it throws. */
  function GetAll(cookie: string): (r: Option<seq<Cookie>>)
    ensures r.Some? ==> forall i :: 0 <= i < |r.value| ==> r.value[i].name != []
  {
    match DecodeAll(Split(cookie, PairSeparator))
    case None => None
    case Some(cs) => Some(NamedOnly(cs))
  }

  /** The name ends at the first '=': a value holding '=' comes back whole. */
  lemma NameEndsAtFirstEquals(name: string, raw: string)
    requires '=' !in name
    ensures ParsePiece(name + NameValueSeparator + raw) == (name, DecodeUriComponent(raw))
  {
    SplitAfterPiece(name, NameValueSeparator, raw);
    JoinSplit(raw, NameValueSeparator);
  }

  /** The empty cookie string holds no cookie. */
  lemma EmptyCookieString()
    ensures GetAll("") == Some([])
  {
    assert Split("", PairSeparator) == [""];
    assert Split("", NameValueSeparator) == [""];
    assert Split("", NameValueSeparator)[1..] == [];
    assert ParsePiece("") == ("", Some(""));
    DecodeOne("");
    var unnamed := Cookie("", "");
    assert [unnamed][1..] == [];
    assert NamedOnly([unnamed]) == [];
  }

  // ---------------------------------------------------------------------------
  // setAll (lines 21-43)
  // ---------------------------------------------------------------------------

  /** A name the pair syntax can carry: non-empty, without '=' or ';'. */
  predicate IsCookieName(name: string) {
    name != [] && '=' !in name && ';' !in name
  }

  /** `${name}=${encodeURIComponent(value)}` */
  function Pair(name: string, value: string): string {
    name + NameValueSeparator + EncodeUriComponent(value)
  }

  /** The options `setAll` reads; an absent member is `None` (or `false`). */
  datatype CookieOptions = CookieOptions(maxAge: Option<int>, domain: Option<string>, path: Option<string>,
                                         sameSite: Option<string>, secure: bool)

  datatype CookieToSet = CookieToSet(name: string, value: string, options: Option<CookieOptions>)

  /** A string option is truthy when present and non-empty. */
  predicate TruthyText(o: Option<string>) {
    o.Some? && o.value != []
  }

  /** `options?.maxAge` is truthy when present and not 0. */
  predicate HasMaxAge(o: Option<CookieOptions>) {
    o.Some? && o.value.maxAge.Some? && o.value.maxAge.value != 0
  }

  predicate HasDomain(o: Option<CookieOptions>) {
    o.Some? && TruthyText(o.value.domain)
  }

  predicate HasSameSite(o: Option<CookieOptions>) {
    o.Some? && TruthyText(o.value.sameSite)
  }

  predicate IsSecure(o: Option<CookieOptions>) {
    o.Some? && o.value.secure
  }

  const DefaultPath := "/"
  const MaxAgeName := "max-age="
  const DomainName := "domain="
  const PathName := "path="
  const SameSiteName := "samesite="
  const SecureFlag := "secure"

  /** The path written: the option when truthy, "/" otherwise. */
  function PathOf(o: Option<CookieOptions>): (p: string)
    ensures p != []
  {
    if o.Some? && TruthyText(o.value.path) then o.value.path.value else DefaultPath
  }

  function MaxAgePart(o: Option<CookieOptions>): (r: seq<string>)
    ensures |r| <= 1
  {
    if HasMaxAge(o) then [MaxAgeName + IntToString(o.value.maxAge.value)] else []
  }

  function DomainPart(o: Option<CookieOptions>): (r: seq<string>)
    ensures |r| <= 1
  {
    if HasDomain(o) then [DomainName + o.value.domain.value] else []
  }

  function SameSitePart(o: Option<CookieOptions>): (r: seq<string>)
    ensures |r| <= 1
  {
    if HasSameSite(o) then [SameSiteName + o.value.sameSite.value] else []
  }

  function SecurePart(o: Option<CookieOptions>): (r: seq<string>)
    ensures |r| <= 1
  {
    if IsSecure(o) then [SecureFlag] else []
  }

  /** The attributes, in the fixed order max-age, domain, path, samesite, secure. */
  function Attributes(o: Option<CookieOptions>): (attrs: seq<string>)
    ensures attrs != []
  {
    MaxAgePart(o) + DomainPart(o) + [PathName + PathOf(o)] + SameSitePart(o) + SecurePart(o)
  }

  /** The string assigned to `document.cookie` for one cookie: the pair, then the attributes, joined by "; ". */
  function CookieString(c: CookieToSet): string {
    Join([Pair(c.name, c.value)] + Attributes(c.options), PairSeparator)
  }

  lemma {:induction false} JoinAppend(parts: seq<string>, sep: string, last: string)
    requires parts != []
    ensures Join(parts + [last], sep) == Join(parts, sep) + sep + last
  {
    if |parts| > 1 {
      assert (parts + [last])[1..] == parts[1..] + [last];
      JoinAppend(parts[1..], sep, last);
    }
  }

  /** An optional attribute as the `+=` writes it: nothing, or the separator and the attribute. */
  function AttributeText(part: seq<string>): string
    requires |part| <= 1
  {
    if part == [] then "" else PairSeparator + part[0]
  }

  /** Appending an optional attribute to the joined string. */
  lemma JoinAppendPart(pair: string, attrs: seq<string>, part: seq<string>)
    requires |part| <= 1
    ensures Join([pair] + (attrs + part), PairSeparator) == Join([pair] + attrs, PairSeparator) + AttributeText(part)
  {
    assert [pair] + (attrs + part) == ([pair] + attrs) + part;
    if part == [] {
      assert ([pair] + attrs) + part == [pair] + attrs;
    } else {
      assert part == [part[0]];
      JoinAppend([pair] + attrs, PairSeparator, part[0]);
    }
  }

  /** The joined cookie string, one attribute at a time. */
  lemma {:induction false} CookieStringSteps(c: CookieToSet)
    ensures CookieString(c)
            == Pair(c.name, c.value) + AttributeText(MaxAgePart(c.options)) + AttributeText(DomainPart(c.options))
               + AttributeText([PathName + PathOf(c.options)]) + AttributeText(SameSitePart(c.options))
               + AttributeText(SecurePart(c.options))
  {
    var o := c.options;
    var pair := Pair(c.name, c.value);
    var a1 := MaxAgePart(o);
    var a2 := a1 + DomainPart(o);
    var a3 := a2 + [PathName + PathOf(o)];
    var a4 := a3 + SameSitePart(o);
    var a5 := a4 + SecurePart(o);
    assert Join([pair], PairSeparator) == pair;
    assert [pair] + [] == [pair];
    JoinAppendPart(pair, [], MaxAgePart(o));
    assert [] + MaxAgePart(o) == a1;
    JoinAppendPart(pair, a1, DomainPart(o));
    JoinAppendPart(pair, a2, [PathName + PathOf(o)]);
    JoinAppendPart(pair, a3, SameSitePart(o));
    JoinAppendPart(pair, a4, SecurePart(o));
    assert a5 == Attributes(o);
  }

  /** One iteration of the `forEach`: the successive `+=` of lines 23-40. */
  method SerializeCookie(c: CookieToSet) returns (cookieString: string)
    ensures cookieString == CookieString(c)
  {
    var o := c.options;
    cookieString := Pair(c.name, c.value);
    ghost var previous := cookieString;
    if HasMaxAge(o) {
      cookieString := cookieString + (PairSeparator + (MaxAgeName + IntToString(o.value.maxAge.value)));
    }
    NoText(previous, MaxAgePart(o));
    assert cookieString == previous + AttributeText(MaxAgePart(o));
    previous := cookieString;
    if HasDomain(o) {
      cookieString := cookieString + (PairSeparator + (DomainName + o.value.domain.value));
    }
    NoText(previous, DomainPart(o));
    assert cookieString == previous + AttributeText(DomainPart(o));
    previous := cookieString;
    if o.Some? && TruthyText(o.value.path) {
      cookieString := cookieString + (PairSeparator + (PathName + o.value.path.value));
    } else {
      cookieString := cookieString + (PairSeparator + (PathName + DefaultPath));
    }
    assert cookieString == previous + AttributeText([PathName + PathOf(o)]);
    previous := cookieString;
    if HasSameSite(o) {
      cookieString := cookieString + (PairSeparator + (SameSiteName + o.value.sameSite.value));
    }
    NoText(previous, SameSitePart(o));
    assert cookieString == previous + AttributeText(SameSitePart(o));
    previous := cookieString;
    if IsSecure(o) {
      cookieString := cookieString + (PairSeparator + SecureFlag);
    }
    NoText(previous, SecurePart(o));
    assert cookieString == previous + AttributeText(SecurePart(o));
    CookieStringSteps(c);
  }

  /** An absent attribute adds nothing. */
  lemma NoText(s: string, part: seq<string>)
    requires |part| <= 1
    ensures part == [] ==> s + AttributeText(part) == s
  {
    if part == [] {
      assert s + "" == s;
    }
  }

  /** `setAll`: one assignment to `document.cookie` per cookie, in order. */
  method SetAll(cookies: seq<CookieToSet>) returns (written: seq<string>)
    ensures |written| == |cookies|
    ensures forall i :: 0 <= i < |cookies| ==> written[i] == CookieString(cookies[i])
  {
    written := [];
    for i := 0 to |cookies|
      invariant |written| == i
      invariant forall k :: 0 <= k < i ==> written[k] == CookieString(cookies[k])
    {
      var s := SerializeCookie(cookies[i]);
      ghost var before := written;
      written := written + [s];
      assert written[..i] == before && written[i] == s;
    }
  }

  /**
   * A max-age of 0 is falsy and is dropped like an absent one, and the path
   * attribute is always written, "/" when none is given.
   */
  lemma AttributeDefaults(o: CookieOptions)
    ensures o.maxAge == Some(0) ==> Attributes(Some(o)) == Attributes(Some(o.(maxAge := None)))
    ensures !TruthyText(o.path) ==> PathName + DefaultPath in Attributes(Some(o))
    ensures Attributes(None) == [PathName + DefaultPath]
  {
  }

  /**
   * What `setAll` writes starts with the pair `getAll` reads back: for a
   * proper name, the first piece of the string parses to the name and the
   * original value.
   */
  lemma {:induction false} SetThenGet(c: CookieToSet)
    requires IsCookieName(c.name)
    ensures Split(CookieString(c), PairSeparator)[0] == Pair(c.name, c.value)
    ensures GetAll(Pair(c.name, c.value)) == Some([Cookie(c.name, c.value)])
  {
    var pair := Pair(c.name, c.value);
    var attrs := Attributes(c.options);
    PairHasNoSemicolon(c.name, c.value);
    assert CookieString(c) == pair + PairSeparator + Join(attrs, PairSeparator) by {
      assert ([pair] + attrs)[1..] == attrs;
    }
    SplitAfterPiece(pair, PairSeparator, Join(attrs, PairSeparator));
    SplitUnseparated(pair, PairSeparator);
    NameEndsAtFirstEquals(c.name, EncodeUriComponent(c.value));
    UriComponentRoundTrip(c.value);
    DecodeOne(pair);
  }

  lemma PairHasNoSemicolon(name: string, value: string)
    requires ';' !in name
    ensures ';' !in Pair(name, value)
  {
    UriComponentHasNoDelimiters(value);
  }

  /** The pairs of several cookies, as the browser lists them. */
  function Pairs(cs: seq<Cookie>): (r: seq<string>)
    ensures |r| == |cs|
  {
    seq(|cs|, i requires 0 <= i < |cs| => Pair(cs[i].name, cs[i].value))
  }

  lemma {:induction false} DecodeAllPairs(cs: seq<Cookie>)
    requires forall i :: 0 <= i < |cs| ==> IsCookieName(cs[i].name)
    ensures DecodeAll(Pairs(cs)) == Some(cs)
  {
    if cs != [] {
      assert Pairs(cs)[1..] == Pairs(cs[1..]);
      DecodeAllPairs(cs[1..]);
      NameEndsAtFirstEquals(cs[0].name, EncodeUriComponent(cs[0].value));
      UriComponentRoundTrip(cs[0].value);
      assert cs == [cs[0]] + cs[1..];
    }
  }

  /** Reading back a cookie string made of proper pairs gives the cookies, in order. */
  lemma GetAllRoundTrip(cs: seq<Cookie>)
    requires forall i :: 0 <= i < |cs| ==> IsCookieName(cs[i].name)
    ensures GetAll(Join(Pairs(cs), PairSeparator)) == Some(cs)
  {
    if cs == [] {
      EmptyCookieString();
    } else {
      forall k | 0 <= k < |cs|
        ensures ';' !in Pairs(cs)[k]
      {
        PairHasNoSemicolon(cs[k].name, cs[k].value);
      }
      SplitJoin(Pairs(cs), PairSeparator);
      DecodeAllPairs(cs);
    }
  }
}
