/**
 * Rust's `{:?}` rendering of a string: the text between double quotes, with
 * quotes, backslashes and control characters escaped. The error layer uses it
 * for the platform message of an access-denied error and the keyring
 * configuration uses it for the keyring path.
 *
 * `Unquote` is the decoder that partners `Quote`: it reads one quoted string
 * off the front of a text and returns what follows the closing quote.
 */
module DebugString {
  import opened Wrappers

  /** The C0 and C1 control characters, which Rust's debug escaping writes as `\u{..}`. */
  predicate IsControl(c: char) {
    (c as int) < 0x20 || 0x7F <= (c as int) <= 0x9F
  }

  predicate IsHexDigit(c: char) {
    '0' <= c <= '9' || 'a' <= c <= 'f'
  }

  predicate AllHex(ds: string) {
    forall k :: 0 <= k < |ds| ==> IsHexDigit(ds[k])
  }

  predicate IsScalar(n: int) {
    0 <= n < 0xD800 || 0xE000 <= n < 0x11_0000
  }

  function HexDigit(d: nat): (c: char)
    requires d < 16
    ensures IsHexDigit(c)
  {
    if d < 10 then ('0' as int + d) as char else ('a' as int + d - 10) as char
  }

  function DigitValue(c: char): (d: nat)
    requires IsHexDigit(c)
    ensures d < 16
  {
    if c <= '9' then c as int - '0' as int else c as int - 'a' as int + 10
  }

  /** Lower-case hexadecimal without leading zeros, as in `\u{1b}`. */
  function HexDigits(n: nat): (ds: string)
    ensures |ds| > 0 && AllHex(ds)
    decreases n
  {
    if n < 16 then [HexDigit(n)] else HexDigits(n / 16) + [HexDigit(n % 16)]
  }

  function HexValue(ds: string): nat
    requires AllHex(ds)
  {
    if ds == [] then 0 else HexValue(ds[..|ds| - 1]) * 16 + DigitValue(ds[|ds| - 1])
  }

  /** The escape Rust's `str` debug formatting writes for one character. */
  function EscapeChar(c: char): string {
    if c == '\0' then "\\0"
    else if c == '\t' then "\\t"
    else if c == '\r' then "\\r"
    else if c == '\n' then "\\n"
    else if c == '\\' then "\\\\"
    else if c == '"' then "\\\""
    else if IsControl(c) then "\\u{" + HexDigits(c as int) + "}"
    else [c]
  }

  function Escape(s: string): string {
    if s == [] then [] else EscapeChar(s[0]) + Escape(s[1..])
  }

  /** `format!("{:?}", s)` for a string `s`; `QuoteRoundTrip` states that it can be read back. */
  function Quote(s: string): (r: string)
    ensures |r| >= 2 && r[0] == '"' && r[|r| - 1] == '"'
  {
    "\"" + Escape(s) + "\""
  }

  /** Index of the first `}` at or after `i`, or `|t|` when there is none. */
  function BraceAt(t: string, i: nat): (j: nat)
    requires i <= |t|
    ensures i <= j <= |t|
    ensures j < |t| ==> t[j] == '}'
    ensures forall k :: i <= k < j ==> t[k] != '}'
    decreases |t| - i
  {
    if i == |t| || t[i] == '}' then i else BraceAt(t, i + 1)
  }

  /** Decodes one escape sequence at the front of `t`: the character and how many characters it took. */
  function DecodeEscape(t: string): (r: Option<(char, nat)>)
    requires |t| > 0 && t[0] == '\\'
    ensures r.Some? ==> 2 <= r.value.1 <= |t|
  {
    if |t| < 2 then None
    else if t[1] == '0' then Some(('\0', 2))
    else if t[1] == 't' then Some(('\t', 2))
    else if t[1] == 'r' then Some(('\r', 2))
    else if t[1] == 'n' then Some(('\n', 2))
    else if t[1] == '\\' then Some(('\\', 2))
    else if t[1] == '"' then Some(('"', 2))
    else if t[1] == 'u' && |t| > 2 && t[2] == '{' then
      var j := BraceAt(t, 3);
      if 3 < j < |t| && AllHex(t[3..j]) && IsScalar(HexValue(t[3..j]))
      then Some((HexValue(t[3..j]) as char, j + 1))
      else None
    else None
  }

  /** Decodes escaped text up to the first unescaped `"`: the decoded string and what follows that quote. */
  function Unescape(t: string): Option<(string, string)>
    decreases |t|
  {
    if t == [] then None
    else if t[0] == '"' then Some(([], t[1..]))
    else if t[0] == '\\' then
      match DecodeEscape(t)
      case None => None
      case Some((c, n)) =>
        match Unescape(t[n..])
        case None => None
        case Some((s, rest)) => Some(([c] + s, rest))
    else
      match Unescape(t[1..])
      case None => None
      case Some((s, rest)) => Some(([t[0]] + s, rest))
  }

  /** Reads one quoted string off the front of `t`. */
  function Unquote(t: string): Option<(string, string)> {
    if |t| > 0 && t[0] == '"' then Unescape(t[1..]) else None
  }

  lemma {:induction false} HexRoundTrip(n: nat)
    ensures HexValue(HexDigits(n)) == n
    decreases n
  {
    var ds := HexDigits(n);
    if n < 16 {
      assert ds[..0] == [];
    } else {
      HexRoundTrip(n / 16);
      assert ds[..|ds| - 1] == HexDigits(n / 16);
    }
  }

  /** Every escape is read back as the character it stands for, whatever follows it. */
  lemma DecodeEscapeChar(c: char, u: string)
    requires EscapeChar(c) != [c]
    ensures |EscapeChar(c)| >= 2 && (EscapeChar(c) + u)[0] == '\\'
    ensures DecodeEscape(EscapeChar(c) + u) == Some((c, |EscapeChar(c)|))
    ensures (EscapeChar(c) + u)[|EscapeChar(c)|..] == u
  {
    var e := EscapeChar(c);
    var t := e + u;
    if c != '\0' && c != '\t' && c != '\r' && c != '\n' && c != '\\' && c != '"' {
      assert IsControl(c);
      var h := HexDigits(c as int);
      assert e == "\\u{" + h + "}";
      var j := 3 + |h|;
      assert t[j] == '}';
      assert forall k :: 3 <= k < j ==> t[k] == h[k - 3];
      assert t[3..j] == h;
      assert BraceAt(t, 3) == j;
      HexRoundTrip(c as int);
    }
  }

  /** Round trip: escaped text followed by a closing quote decodes to the original, leaving what follows. */
  lemma {:induction false} UnescapeEscape(s: string, rest: string)
    ensures Unescape(Escape(s) + "\"" + rest) == Some((s, rest))
    decreases |s|
  {
    var t := Escape(s) + "\"" + rest;
    if s == [] {
      assert t == "\"" + rest;
      assert t[1..] == rest;
    } else {
      var c := s[0];
      var u := Escape(s[1..]) + "\"" + rest;
      assert t == EscapeChar(c) + u;
      UnescapeEscape(s[1..], rest);
      if EscapeChar(c) == [c] {
        assert c != '"' && c != '\\';
        assert t[1..] == u;
      } else {
        DecodeEscapeChar(c, u);
      }
      assert [c] + s[1..] == s;
    }
  }

  /** Round trip for `Quote`: a quoted string read back from the front of any text. */
  lemma QuoteRoundTrip(s: string, rest: string)
    ensures Unquote(Quote(s) + rest) == Some((s, rest))
  {
    var t := Quote(s) + rest;
    assert t == "\"" + (Escape(s) + "\"" + rest);
    assert t[1..] == Escape(s) + "\"" + rest;
    UnescapeEscape(s, rest);
  }

  /** `Quote` loses nothing: two strings with the same rendering are equal. */
  lemma QuoteInjective(a: string, b: string)
    ensures Quote(a) == Quote(b) <==> a == b
  {
    if Quote(a) == Quote(b) {
      QuoteRoundTrip(a, "");
      QuoteRoundTrip(b, "");
      assert Quote(a) + "" == Quote(a);
      assert Quote(b) + "" == Quote(b);
    }
  }
}
