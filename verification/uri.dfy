/** `decodeURIComponent`, which `decode` applies to every property name
    (database.js, line 517), and the per-character percent-escaping of
    property names that `encode` is meant to perform (lines 484-488).

    The decoder follows the Decode operation of section 15.1.3 of
    ECMAScript 5.1 with an empty reserved set: `%XY` escapes are read as
    UTF-8 bytes, and a truncated escape, a non-hex digit, a stray
    continuation byte, an overlong form, a surrogate or a code point above
    U+10FFFF raises a URIError. */
module Uri {
  import opened Wrappers
  import opened Text
  import opened Errors

  /** The byte that the escape `%XY` at `s[i..i + 3]` denotes, when `X` and
      `Y` are hex digits. */
  function Octet(s: string, i: nat): (r: Option<nat>)
    ensures r.Some? ==> i + 3 <= |s| && s[i] == '%' && r.value < 256
  {
    if i + 2 < |s| && s[i] == '%' && IsHexDigit(s[i + 1]) && IsHexDigit(s[i + 2])
    then Some(16 * HexDigitValue(s[i + 1]) + HexDigitValue(s[i + 2]))
    else None
  }

  /** How many bytes the UTF-8 sequence starting with byte `b` has; 0 when
      `b` cannot start a sequence. */
  function SequenceLength(b: nat): (n: nat)
    ensures n <= 4 && n != 1 ==> b >= 0xC0 || n == 0
  {
    if b < 0x80 then 1
    else if b < 0xC0 then 0
    else if b < 0xE0 then 2
    else if b < 0xF0 then 3
    else if b < 0xF8 then 4
    else 0
  }

  /** The payload bits of the leading byte of an `n`-byte sequence. */
  function LeadBits(b: nat, n: nat): nat
    requires 2 <= n <= 4 && SequenceLength(b) == n
  {
    if n == 2 then b - 0xC0 else if n == 3 then b - 0xE0 else b - 0xF0
  }

  /** The smallest code point that needs `n` bytes; a smaller one written
      with `n` bytes is an overlong form. */
  function MinCodePoint(n: nat): nat
  {
    if n == 2 then 0x80 else if n == 3 then 0x800 else 0x1_0000
  }

  /** A Unicode scalar value: a code point that is not a surrogate. */
  predicate IsScalar(v: nat)
  {
    v < 0xD800 || 0xE000 <= v < 0x11_0000
  }

  /** Reads the continuation bytes `j .. n - 1` of a sequence, escaped at
      `s[3 * j ..]`, onto the bits `acc` read so far. */
  function Continuations(s: string, acc: nat, j: nat, n: nat): Option<nat>
    requires 1 <= j <= n && 3 * n <= |s|
    decreases n - j
  {
    if j == n then Some(acc)
    else match Octet(s, 3 * j)
      case None => None
      case Some(c) =>
        if 0x80 <= c < 0xC0 then Continuations(s, acc * 64 + (c - 0x80), j + 1, n) else None
  }

  /** Decodes the escape sequence at the start of `s`: the character and how
      many characters of `s` it spans, or None when it is malformed. */
  function DecodeEscape(s: string): (r: Option<(char, nat)>)
    ensures r.Some? ==> 3 <= r.value.1 <= |s|
    ensures r.Some? ==> s[0] == '%'
  {
    match Octet(s, 0)
    case None => None
    case Some(b) =>
      var n := SequenceLength(b);
      if n == 1 then Some((b as char, 3))
      else if n == 0 || |s| < 3 * n then None
      else match Continuations(s, LeadBits(b, n), 1, n)
        case None => None
        case Some(v) => if MinCodePoint(n) <= v && IsScalar(v) then Some((v as char, 3 * n)) else None
  }

  /** Puts `c` in front of a decoded string; errors pass through. */
  function Prepend(c: char, r: Result<string, ForeignError>): Result<string, ForeignError>
  {
    if r.Ok? then Ok([c] + r.value) else r
  }

  /** `decodeURIComponent(s)`. A string without `%` is its own decoding, and
      decoding never lengthens a string. */
  function DecodeUriComponent(s: string): (r: Result<string, ForeignError>)
    ensures '%' !in s ==> r == Ok(s)
    ensures r.Ok? ==> |r.value| <= |s|
    ensures r.Err? ==> r.error == URI_MALFORMED && '%' in s
    decreases |s|
  {
    if s == [] then Ok([])
    else if s[0] != '%' then
      assert s == [s[0]] + s[1..];
      Prepend(s[0], DecodeUriComponent(s[1..]))
    else match DecodeEscape(s)
      case None => Err(URI_MALFORMED)
      case Some((c, used)) => Prepend(c, DecodeUriComponent(s[used..]))
  }

  /** The escape of one character of a property name: `%`, `$` and `.`
      become `%25`, `%24` and `%2E`, every other character stays. */
  function EscapeChar(c: char): string
  {
    if c == '%' then "%25" else if c == '$' then "%24" else if c == '.' then "%2E" else [c]
  }

  /** The property name with every `%`, `$` and `.` percent-escaped. The
      result holds neither of the two characters MongoDB reserves in keys. */
  function EscapeKeyIntended(s: string): (r: string)
    ensures '$' !in r && '.' !in r
    ensures |s| <= |r| <= 3 * |s|
    decreases |s|
  {
    if s == [] then [] else EscapeChar(s[0]) + EscapeKeyIntended(s[1..])
  }

  /** Decoding an escaped character followed by anything decodes the rest. */
  lemma DecodeEscapeChar(c: char, rest: string)
    ensures DecodeUriComponent(EscapeChar(c) + rest) == Prepend(c, DecodeUriComponent(rest))
  {
    var s := EscapeChar(c) + rest;
    if c == '%' || c == '$' || c == '.' {
      assert s[0] == '%' && s[3..] == rest;
      assert s[1] == EscapeChar(c)[1] && s[2] == EscapeChar(c)[2];
      assert DecodeEscape(s) == Some((c, 3));
    } else {
      assert s[1..] == rest;
    }
  }

  /** `decodeURIComponent` undoes the escaping: the round trip `decode` and
      `encode` rely on. */
  lemma {:induction false} DecodeEscapedKey(s: string)
    ensures DecodeUriComponent(EscapeKeyIntended(s)) == Ok(s)
    decreases |s|
  {
    if s != [] {
      DecodeEscapeChar(s[0], EscapeKeyIntended(s[1..]));
      DecodeEscapedKey(s[1..]);
      assert s == [s[0]] + s[1..];
    }
  }

  /** Different property names stay different once escaped. */
  lemma EscapeKeyInjective(a: string, b: string)
    requires EscapeKeyIntended(a) == EscapeKeyIntended(b)
    ensures a == b
  {
    DecodeEscapedKey(a);
    DecodeEscapedKey(b);
  }

  /** A lone `%`, or one followed by a non-hex digit, is malformed. */
  lemma MalformedEscapes()
    ensures DecodeUriComponent("100%") == Err(URI_MALFORMED)
    ensures DecodeUriComponent("%zz") == Err(URI_MALFORMED)
  {
    var s := "100%";
    assert s[1..] == "00%" && s[1..][1..] == "0%" && s[1..][1..][1..] == "%";
    assert DecodeUriComponent("%") == Err(URI_MALFORMED);
  }

  /** Escapes decode as UTF-8: `%C3%A9` is `é` (U+00E9), while the overlong
      form `%C0%80` of U+0000 and the surrogate `%ED%A0%80` are rejected. */
  lemma Utf8Escapes()
    ensures DecodeUriComponent("%C3%A9") == Ok(['é'])
    ensures DecodeUriComponent("%C0%80") == Err(URI_MALFORMED)
    ensures DecodeUriComponent("%ED%A0%80") == Err(URI_MALFORMED)
  {
    var e := "%C3%A9";
    assert Octet(e, 0) == Some(0xC3) && Octet(e, 3) == Some(0xA9);
    assert Continuations(e, LeadBits(0xC3, 2), 1, 2) == Some(0xE9);
    assert 0xE9 as char == 'é';
    assert DecodeEscape(e) == Some(('é', 6));
    assert e[0] == '%' && e[6..] == [];
    assert DecodeUriComponent(e[6..]) == Ok([]);
    assert DecodeUriComponent(e) == Prepend('é', Ok([]));
    assert ['é'] + [] == ['é'];
    var o := "%C0%80";
    assert Octet(o, 0) == Some(0xC0) && Octet(o, 3) == Some(0x80);
    assert DecodeEscape(o) == None;
    var u := "%ED%A0%80";
    assert Octet(u, 0) == Some(0xED) && Octet(u, 3) == Some(0xA0) && Octet(u, 6) == Some(0x80);
    assert DecodeEscape(u) == None;
  }
}
