/** The string literals of the RWKV vocabulary file, engine/tokenizer_rwkv.cpp:8-96:
    parsing undoes the way Python writes them. */
module RwkvLiteral {
  import opened Wrappers
  import opened Graph

  /** rwkv_hex. */
  function HexValue(c: byte): Option<nat> {
    if '0' <= c <= '9' then Some(c as int - '0' as int)
    else if 'a' <= c <= 'f' then Some(c as int - 'a' as int + 10)
    else if 'A' <= c <= 'F' then Some(c as int - 'A' as int + 10)
    else None
  }

  function HexDigit(n: nat, upper: bool): byte
    requires n < 16
  {
    if n < 10 then (n + '0' as int) as char else (n - 10 + if upper then 'A' as int else 'a' as int) as char
  }

  /** One escaped or plain byte: its value, and how many bytes it takes. */
  function Unit(s: Bytes): (r: (byte, nat))
    requires s != []
    ensures 1 <= r.1 <= |s|
  {
    if s[0] != '\\' || |s| == 1 then (s[0], 1)
    else if s[1] == 'n' then ('\n', 2)
    else if s[1] == 't' then ('\t', 2)
    else if s[1] == 'r' then ('\r', 2)
    else if s[1] == 'x' && |s| > 3 && HexValue(s[2]).Some? && HexValue(s[3]).Some? then
      ((16 * HexValue(s[2]).value + HexValue(s[3]).value) as char, 4)
    else (s[1], 2)
  }

  function Unescaped(s: Bytes): Bytes
    decreases |s|
  {
    if s == [] then [] else [Unit(s).0] + Unescaped(s[Unit(s).1..])
  }

  /** The text between the quotes; an unquoted string stands for itself. */
  function Body(s: Bytes): Option<Bytes> {
    var begin := if |s| >= 3 && s[0] == 'b' && (s[1] == '\'' || s[1] == '"') then 2
                 else if |s| >= 2 && (s[0] == '\'' || s[0] == '"') then 1 else 0;
    if begin == 0 then None
    else Some(s[begin..if |s| > begin && s[|s| - 1] == s[begin - 1] then |s| - 1 else |s|])
  }

  /** rwkv_literal. */
  method ParseLiteral(s: Bytes) returns (out: Bytes)
    ensures out == Parsed(s)
  {
    var body := Body(s);
    if body.None? {
      return s;
    }
    var text := body.value;
    out := [];
    var i := 0;
    while i < |text|
      invariant 0 <= i <= |text| && out + Unescaped(text[i..]) == Unescaped(text)
    {
      var unit := Unit(text[i..]);
      assert text[i..][unit.1..] == text[i + unit.1..];
      out := out + [unit.0];
      i := i + unit.1;
    }
    assert text[i..] == [];
  }

  /** How Python writes one byte between quotes of either kind, with hexadecimal digits
      in either case. */
  function Escape(b: byte, quote: byte, upper: bool): (r: Bytes)
    ensures r != []
  {
    if b == '\n' then "\\n"
    else if b == '\t' then "\\t"
    else if b == '\r' then "\\r"
    else if b == '\\' then "\\\\"
    else if b == quote then ['\\', quote]
    else if ' ' <= b <= '~' then [b]
    else ['\\', 'x', HexDigit(b as int / 16, upper), HexDigit(b as int % 16, upper)]
  }

  predicate IsQuote(q: byte) {
    q == '\'' || q == '"'
  }

  function Escaped(raw: Bytes, quote: byte, upper: bool): Bytes {
    if raw == [] then [] else Escape(raw[0], quote, upper) + Escaped(raw[1..], quote, upper)
  }

  lemma HexRoundTrip(n: nat, upper: bool)
    requires n < 16
    ensures HexValue(HexDigit(n, upper)) == Some(n)
  {
  }

  lemma UnitOfEscape(b: byte, quote: byte, upper: bool, rest: Bytes)
    requires IsQuote(quote)
    ensures Unit(Escape(b, quote, upper) + rest) == (b, |Escape(b, quote, upper)|)
  {
    HexRoundTrip(b as int / 16, upper);
    HexRoundTrip(b as int % 16, upper);
  }

  lemma {:induction false} UnescapedEscaped(raw: Bytes, quote: byte, upper: bool)
    requires IsQuote(quote)
    ensures Unescaped(Escaped(raw, quote, upper)) == raw
  {
    if raw != [] {
      var rest := Escaped(raw[1..], quote, upper);
      UnitOfEscape(raw[0], quote, upper, rest);
      UnescapedEscaped(raw[1..], quote, upper);
      assert (Escape(raw[0], quote, upper) + rest)[|Escape(raw[0], quote, upper)|..] == rest;
    }
  }

  /** What rwkv_literal makes of a text. */
  function Parsed(s: Bytes): Bytes {
    match Body(s)
    case None => s
    case Some(body) => Unescaped(body)
  }

  /** Every byte string survives being written as a literal, bytes or not and between
      quotes of either kind; a text without quotes stands for itself. */
  lemma LiteralRoundTrip(raw: Bytes, quote: byte, upper: bool)
    requires IsQuote(quote)
    ensures Parsed(['b', quote] + Escaped(raw, quote, upper) + [quote]) == raw
    ensures Parsed([quote] + Escaped(raw, quote, upper) + [quote]) == raw
    ensures raw != [] && !IsQuote(raw[0]) && raw[0] != 'b' ==> Parsed(raw) == raw
  {
    hide Unescaped, Escaped;
    UnescapedEscaped(raw, quote, upper);
    BodyOfBytes(Escaped(raw, quote, upper), quote);
    BodyOfText(Escaped(raw, quote, upper), quote);
  }

  lemma BodyOfBytes(text: Bytes, quote: byte)
    requires IsQuote(quote)
    ensures Body(['b', quote] + text + [quote]) == Some(text)
  {
    var s: Bytes := ['b', quote] + text + [quote];
    assert s[2..|s| - 1] == text;
  }

  lemma BodyOfText(text: Bytes, quote: byte)
    requires IsQuote(quote)
    ensures Body([quote] + text + [quote]) == Some(text)
  {
    var s: Bytes := [quote] + text + [quote];
    assert s[1..|s| - 1] == text;
  }
}
