/** `json.dumps` with its default settings (`ensure_ascii=True`, separators
    `", "` and `": "`, no indentation), and the UTF-8 encoding of its output.
    The point of the model: the text is printable ASCII, so it never holds a
    raw newline and a dumped message is always exactly one frame. */
module JsonText {
  import opened Json
  import Text
  import Framing

  /** Every character lies between space and tilde. */
  predicate Printable(s: string) {
    forall k :: 0 <= k < |s| ==> ' ' <= s[k] <= '~'
  }

  function HexDigit(d: nat): char
    requires d < 16
  {
    "0123456789abcdef"[d]
  }

  /** Four lower-case hex digits, as in `'\\u{0:04x}'`. */
  function Hex4(n: nat): (r: string)
    requires n < 0x10000
    ensures |r| == 4 && Printable(r)
  {
    [HexDigit(n / 4096), HexDigit(n / 256 % 16), HexDigit(n / 16 % 16), HexDigit(n % 16)]
  }

  /** The ASCII escape of one character: the two-character escapes for
      quote, backslash, newline, carriage return, tab, backspace and form
      feed; printable ASCII as itself; everything else as `\uXXXX`, with a
      surrogate pair above the Basic Multilingual Plane. */
  function EscapeChar(c: char): (r: string)
    ensures Printable(r) && |r| >= 1
  {
    var n := c as int;
    if c == '"' then "\\\""
    else if c == '\\' then "\\\\"
    else if c == '\n' then "\\n"
    else if c == '\r' then "\\r"
    else if c == '\t' then "\\t"
    else if n == 8 then "\\b"
    else if n == 12 then "\\f"
    else if 32 <= n <= 126 then [c]
    else if n < 0x10000 then "\\u" + Hex4(n)
    else
      var v := n - 0x10000;
      "\\u" + Hex4(0xD800 + v / 0x400) + "\\u" + Hex4(0xDC00 + v % 0x400)
  }

  function EscapeString(s: string): (r: string)
    ensures Printable(r)
  {
    if |s| == 0 then "" else EscapeChar(s[0]) + EscapeString(s[1..])
  }

  /** A JSON string literal. */
  function Quote(s: string): (r: string)
    ensures Printable(r)
  {
    "\"" + EscapeString(s) + "\""
  }

  /** `sep.join(parts)` with a string separator. */
  function JoinWith(parts: seq<string>, sep: string): (r: string)
    requires Printable(sep)
    requires forall k :: 0 <= k < |parts| ==> Printable(parts[k])
    ensures Printable(r)
  {
    if |parts| == 0 then ""
    else if |parts| == 1 then parts[0]
    else
      var tail := JoinWith(parts[1..], sep);
      PrintableConcat(parts[0], sep);
      PrintableConcat(parts[0] + sep, tail);
      parts[0] + sep + tail
  }

  lemma PrintableConcat(a: string, b: string)
    requires Printable(a) && Printable(b)
    ensures Printable(a + b)
  {
    forall k | 0 <= k < |a + b| ensures ' ' <= (a + b)[k] <= '~' {
      if k < |a| { assert (a + b)[k] == a[k]; } else { assert (a + b)[k] == b[k - |a|]; }
    }
  }

  /** The text of a float literal. The model writes `mantissa` `e`
      `exponent`; Python's shortest-repr digits are not modelled, only that
      the text uses digits, `-` and `e`. */
  function FloatText(m: int, e: int): (r: string)
    ensures Printable(r)
  {
    Text.IntText(m) + "e" + Text.IntText(e)
  }

  /** `json.dumps(v)`. */
  function Dumps(v: Json): (r: string)
    ensures Printable(r)
  {
    match v
    case JNull => "null"
    case JBool(b) => if b then "true" else "false"
    case JInt(i) => Text.IntText(i)
    case JFloat(m, e) => FloatText(m, e)
    case JStr(s) => Quote(s)
    case JArr(items) =>
      var parts := seq(|items|, k requires 0 <= k < |items| => Dumps(items[k]));
      "[" + JoinWith(parts, ", ") + "]"
    case JObj(fields) =>
      var parts := seq(|fields|, k requires 0 <= k < |fields| =>
                         Quote(fields[k].key) + ": " + Dumps(fields[k].val));
      "{" + JoinWith(parts, ", ") + "}"
  }

  /** `s.encode('utf-8')` for ASCII text: one byte per character. */
  function EncodeAscii(s: string): (r: Framing.Bytes)
    requires Printable(s)
    ensures |r| == |s|
    ensures forall k :: 0 <= k < |s| ==> r[k] as int == s[k] as int
  {
    seq(|s|, k requires 0 <= k < |s| => s[k] as int as Framing.byte)
  }

  /** `json.dumps(v).encode('utf-8')`: the bytes of one message on the wire,
      before the delimiter. They never contain the delimiter. */
  function Wire(v: Json): (r: Framing.Bytes)
    ensures Framing.Newline !in r
  {
    var text := Dumps(v);
    var r := EncodeAscii(text);
    assert forall k :: 0 <= k < |r| ==> r[k] != Framing.Newline by {
      forall k | 0 <= k < |r| ensures r[k] != Framing.Newline {
        assert ' ' <= text[k] <= '~';
      }
    }
    r
  }
}
