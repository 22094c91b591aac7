/** The request path of a stream read: percent-encoded segments that can be told apart again. */
module StreamPath {
  import opened Text

  newtype Byte = b: int | 0 <= b < 256

  // ---- percent-encoding (section 2.1 of RFC 3986) ----

  predicate IsUnreserved(b: Byte) {
    || 'A' as int <= b as int <= 'Z' as int || 'a' as int <= b as int <= 'z' as int || '0' as int <= b as int <= '9' as int
    || b as int as char in "-_.!~*'()"
  }

  function HexDigit(n: int): char
    requires 0 <= n < 16
  {
    "0123456789ABCDEF"[n]
  }

  function HexValue(c: char): Option<int> {
    if '0' <= c <= '9' then Some(c as int - 48) else if 'A' <= c <= 'F' then Some(c as int - 55) else None
  }

  function EncodeByte(b: Byte): string {
    if IsUnreserved(b) then [b as int as char] else ['%', HexDigit(b as int / 16), HexDigit(b as int % 16)]
  }

  /** The character codes that are left as they are: letters, digits and `! ' ( ) * - . _ ~`. */
  predicate IsKept(code: int) {
    65 <= code <= 90 || 97 <= code <= 122 || 48 <= code <= 57 || code in {33, 39, 40, 41, 42, 45, 46, 95, 126}
  }

  function HexCode(n: int): int { if n < 10 then 48 + n else 55 + n }

  /** A kept byte becomes its own character; any other becomes a percent sign and two upper-case hexadecimal digits. */
  lemma EncodeByteExactly(b: Byte)
    ensures EncodeByte(b) == [b as int as char] <==> IsKept(b as int)
    ensures !IsKept(b as int) ==>
            |EncodeByte(b)| == 3 && EncodeByte(b)[0] == '%'
            && EncodeByte(b)[1] as int == HexCode(b as int / 16) && EncodeByte(b)[2] as int == HexCode(b as int % 16)
  {
    HexDigitExactly(b as int / 16);
    HexDigitExactly(b as int % 16);
    MarksExactly(b);
  }

  lemma HexDigitExactly(n: int)
    requires 0 <= n < 16
    ensures HexDigit(n) as int == HexCode(n)
  {
    HexRoundTrip(n);
  }

  lemma MarksExactly(b: Byte)
    ensures b as int as char in "-_.!~*'()" <==> b as int in {33, 39, 40, 41, 42, 45, 46, 95, 126}
  {
    var marks := "-_.!~*'()";
    assert marks[0] as int == 45 && marks[1] as int == 95 && marks[2] as int == 46 && marks[3] as int == 33 && marks[4] as int == 126
        && marks[5] as int == 42 && marks[6] as int == 39 && marks[7] as int == 40 && marks[8] as int == 41;
  }

  function Encode(input: seq<Byte>): string {
    if input == [] then "" else EncodeByte(input[0]) + Encode(input[1..])
  }

  function Decode(text: string): Option<seq<Byte>> {
    if text == "" then Some([])
    else if text[0] == '%' then
      if |text| < 3 || HexValue(text[1]).None? || HexValue(text[2]).None? then None
      else
        match Decode(text[3..])
        case None => None
        case Some(rest) => Some([(HexValue(text[1]).value * 16 + HexValue(text[2]).value) as Byte] + rest)
    else if text[0] as int >= 256 then None
    else
      match Decode(text[1..])
      case None => None
      case Some(rest) => Some([text[0] as int as Byte] + rest)
  }

  lemma HexRoundTrip(n: int)
    requires 0 <= n < 16
    ensures HexValue(HexDigit(n)) == Some(n)
  {
    var digits := "0123456789ABCDEF";
    assert digits[0] == '0' && digits[1] == '1' && digits[2] == '2' && digits[3] == '3' && digits[4] == '4'
        && digits[5] == '5' && digits[6] == '6' && digits[7] == '7' && digits[8] == '8' && digits[9] == '9'
        && digits[10] == 'A' && digits[11] == 'B' && digits[12] == 'C' && digits[13] == 'D' && digits[14] == 'E' && digits[15] == 'F';
  }

  lemma DecodePlain(c: char, rest: string)
    requires c != '%' && c as int < 256 && Decode(rest).Some?
    ensures Decode([c] + rest) == Some([c as int as Byte] + Decode(rest).value)
  {
    assert ([c] + rest)[1..] == rest;
  }

  lemma DecodeEscape(hi: int, lo: int, rest: string)
    requires 0 <= hi < 16 && 0 <= lo < 16 && Decode(rest).Some?
    ensures Decode(['%', HexDigit(hi), HexDigit(lo)] + rest) == Some([(hi * 16 + lo) as Byte] + Decode(rest).value)
  {
    assert (['%', HexDigit(hi), HexDigit(lo)] + rest)[3..] == rest;
    HexRoundTrip(hi);
    HexRoundTrip(lo);
  }

  lemma DecodeFirst(b: Byte, rest: string)
    requires Decode(rest).Some?
    ensures Decode(EncodeByte(b) + rest) == Some([b] + Decode(rest).value)
  {
    if IsUnreserved(b) {
      assert b as int as char != '%' by { assert '%' !in "-_.!~*'()"; }
      DecodePlain(b as int as char, rest);
    } else {
      DecodeEscape(b as int / 16, b as int % 16, rest);
    }
  }

  /** Decoding undoes encoding, on every byte string. */
  lemma {:induction false} DecodeEncode(input: seq<Byte>)
    ensures Decode(Encode(input)) == Some(input)
  {
    if input != [] {
      DecodeEncode(input[1..]);
      DecodeFirst(input[0], Encode(input[1..]));
      assert input == [input[0]] + input[1..];
    }
  }

  /** What encoding may emit: unreserved characters and escapes. */
  predicate IsPlain(c: char) { c == '%' || (c as int < 256 && IsUnreserved(c as int as Byte)) }

  lemma HexIsPlain(n: int)
    requires 0 <= n < 16
    ensures IsPlain(HexDigit(n))
  {
    HexRoundTrip(n);
  }

  lemma {:induction false} EncodeIsPlain(input: seq<Byte>)
    ensures forall c | c in Encode(input) :: IsPlain(c)
  {
    if input != [] {
      EncodeIsPlain(input[1..]);
      HexIsPlain(input[0] as int / 16);
      HexIsPlain(input[0] as int % 16);
    }
  }

  /** No delimiter of a path or query is ever emitted. */
  lemma EncodeHasNoDelimiter(input: seq<Byte>)
    ensures '/' !in Encode(input) && '?' !in Encode(input) && '&' !in Encode(input) && '=' !in Encode(input)
  {
    EncodeIsPlain(input);
    assert '/' !in "-_.!~*'()" && '?' !in "-_.!~*'()" && '&' !in "-_.!~*'()" && '=' !in "-_.!~*'()";
    assert !IsPlain('/') && !IsPlain('?') && !IsPlain('&') && !IsPlain('=');
  }

  lemma {:induction false} EncodeAppend(input: seq<Byte>, b: Byte)
    ensures Encode(input + [b]) == Encode(input) + EncodeByte(b)
  {
    if input == [] {
      assert [b][1..] == [];
      assert [] + [b] == [b];
      assert EncodeByte(b) + "" == EncodeByte(b);
    } else {
      EncodeAppend(input[1..], b);
      assert (input + [b])[1..] == input[1..] + [b];
    }
  }

  method UrlEncodeComponent(input: seq<Byte>) returns (out: string)
    ensures out == Encode(input)
  {
    out := "";
    for i := 0 to |input|
      invariant out == Encode(input[..i])
    {
      EncodeAppend(input[..i], input[i]);
      assert input[..i + 1] == input[..i] + [input[i]];
      if IsUnreserved(input[i]) {
        out := out + [input[i] as int as char];
      } else {
        var high, low := HexDigit(input[i] as int / 16), HexDigit(input[i] as int % 16);
        assert out + EncodeByte(input[i]) == out + ['%'] + [high] + [low];
        out := out + ['%'] + [high] + [low];
      }
    }
    assert input[..|input|] == input;
  }

  // ---- the path ----

  datatype Request = Request(stream: seq<Byte>, key: seq<Byte>, limit: int, cursor: Option<seq<Byte>>)

  function Clamp(limit: int): (n: nat)
    ensures 1 <= n <= 100 && (1 <= limit <= 100 ==> n == limit)
  {
    if limit < 1 then 1 else if limit > 100 then 100 else limit
  }

  /** The clamped limit is the allowed one closest to what was asked for. */
  lemma ClampIsNearest(limit: int, n: int)
    requires 1 <= n <= 100
    ensures var gap := limit - Clamp(limit);
            n != Clamp(limit) ==> (if gap < 0 then -gap else gap) < (if limit < n then n - limit else limit - n)
  {
  }

  lemma ClampMonotone(a: int, b: int)
    requires a <= b
    ensures Clamp(a) <= Clamp(b)
  {
  }

  function LimitText(limit: int): string { "limit=" + NatText(Clamp(limit)) }

  function Query(limit: int, cursor: Option<seq<Byte>>): string {
    LimitText(limit) + match cursor case None => "" case Some(c) => "&cursor=" + Encode(c)
  }

  function Path(r: Request): string {
    "/streams/" + (Encode(r.stream) + ['/'] + (Encode(r.key) + ['?'] + Query(r.limit, r.cursor)))
  }

  /** The text of the path, delimiter by delimiter. */
  lemma PathText(r: Request)
    ensures Path(r) == "/streams/" + Encode(r.stream) + "/" + Encode(r.key) + "?" + LimitText(r.limit)
                       + if r.cursor.None? then "" else "&cursor=" + Encode(r.cursor.value)
    ensures LimitText(r.limit) == "limit=" + NatText(Clamp(r.limit))
  {
  }

  // ---- reading the path back ----

  /** The text up to the first `c`, and what follows it. */
  function Cut(text: string, c: char): (string, Option<string>) {
    if text == "" then ("", None)
    else if text[0] == c then ("", Some(text[1..]))
    else var (before, after) := Cut(text[1..], c); ([text[0]] + before, after)
  }

  lemma {:induction false} CutAt(before: string, c: char, after: string)
    requires c !in before
    ensures Cut(before + [c] + after, c) == (before, Some(after))
  {
    var text := before + [c] + after;
    if before == "" {
      assert text[1..] == after;
    } else {
      assert text[1..] == before[1..] + [c] + after;
      CutAt(before[1..], c, after);
      assert before == [before[0]] + before[1..];
    }
  }

  lemma {:induction false} CutAbsent(text: string, c: char)
    requires c !in text
    ensures Cut(text, c) == (text, None)
  {
    if text != "" {
      CutAbsent(text[1..], c);
      assert text == [text[0]] + text[1..];
    }
  }

  function ParseQuery(query: string): Option<(nat, Option<seq<Byte>>)> {
    var (limitText, rest) := Cut(query, '&');
    if |limitText| < 6 || !(forall c | c in limitText[6..] :: IsDigit(c)) then None
    else
      var limit := ParseNat(limitText[6..]);
      match rest
      case None => Some((limit, None))
      case Some(cursorText) =>
        if |cursorText| < 7 || Decode(cursorText[7..]).None? then None else Some((limit, Some(Decode(cursorText[7..]).value)))
  }

  function ParsePath(path: string): Option<Request> {
    if |path| < 9 then None
    else
      var (streamText, afterStream) := Cut(path[9..], '/');
      if afterStream.None? || Decode(streamText).None? then None
      else
        var (keyText, query) := Cut(afterStream.value, '?');
        if query.None? || Decode(keyText).None? || ParseQuery(query.value).None? then None
        else
          var (limit, cursor) := ParseQuery(query.value).value;
          Some(Request(Decode(streamText).value, Decode(keyText).value, limit, cursor))
  }

  lemma LimitRoundTrip(limit: int)
    ensures '&' !in LimitText(limit) && |LimitText(limit)| >= 6
    ensures (forall c | c in LimitText(limit)[6..] :: IsDigit(c)) && ParseNat(LimitText(limit)[6..]) == Clamp(limit)
  {
    var digits := NatText(Clamp(limit));
    NatTextRoundTrip(Clamp(limit));
    assert LimitText(limit)[6..] == digits;
    assert '&' !in "limit=" && '&' !in digits;
  }

  lemma CursorRoundTrip(cursor: seq<Byte>)
    ensures var text := "cursor=" + Encode(cursor); |text| >= 7 && Decode(text[7..]) == Some(cursor)
  {
    assert ("cursor=" + Encode(cursor))[7..] == Encode(cursor);
    DecodeEncode(cursor);
  }

  lemma QueryRoundTrip(limit: int, cursor: Option<seq<Byte>>)
    ensures ParseQuery(Query(limit, cursor)) == Some((Clamp(limit), cursor))
  {
    LimitRoundTrip(limit);
    var head := LimitText(limit);
    match cursor
    case None =>
      assert Query(limit, cursor) == head;
      CutAbsent(head, '&');
    case Some(c) =>
      var tail := "cursor=" + Encode(c);
      assert Query(limit, cursor) == head + ['&'] + tail by { assert "&cursor=" == ['&'] + "cursor="; }
      CutAt(head, '&', tail);
      CursorRoundTrip(c);
  }

  /** Stream, key, clamped limit and cursor are recovered from the path. */
  lemma PathRoundTrip(r: Request)
    ensures ParsePath(Path(r)) == Some(r.(limit := Clamp(r.limit)))
  {
    var s, k, q := Encode(r.stream), Encode(r.key), Query(r.limit, r.cursor);
    var afterStream := k + ['?'] + q;
    assert Path(r)[9..] == s + ['/'] + afterStream;
    EncodeHasNoDelimiter(r.stream);
    EncodeHasNoDelimiter(r.key);
    CutAt(s, '/', afterStream);
    CutAt(k, '?', q);
    DecodeEncode(r.stream);
    DecodeEncode(r.key);
    QueryRoundTrip(r.limit, r.cursor);
  }

  /** Two reads share a path exactly when they ask for the same thing. */
  lemma PathInjective(a: Request, b: Request)
    ensures Path(a) == Path(b) <==> a.(limit := Clamp(a.limit)) == b.(limit := Clamp(b.limit))
  {
    PathRoundTrip(a);
    PathRoundTrip(b);
  }
}
