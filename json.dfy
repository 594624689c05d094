/**
 * JavaScript values as they cross the JSON boundary: the relay body,
 * the parsed error body of a failed relay call, and the rows the server
 * renames. `Stringify` is `JSON.stringify` on these values.
 */
module Json {

  import opened Types
  import Strings

  /** Numbers are integers here; objects keep their keys in insertion order. */
  datatype Json =
    | JNull
    | JBool(b: bool)
    | JNum(n: int)
    | JStr(s: string)
    | JArr(items: seq<Json>)
    | JObj(fields: seq<(string, Json)>)

  /** JavaScript truthiness of a JSON value. */
  predicate Truthy(j: Json) {
    match j
    case JNull => false
    case JBool(b) => b
    case JNum(n) => n != 0
    case JStr(s) => s != ""
    case JArr(_) => true
    case JObj(_) => true
  }

  /** The value stored under `key`; a later duplicate wins, as in `JSON.parse`. */
  function Get(fields: seq<(string, Json)>, key: string): (r: Option<Json>)
    ensures r.Some? <==> exists i :: 0 <= i < |fields| && fields[i].0 == key
  {
    if fields == [] then None
    else if fields[|fields| - 1].0 == key then Some(fields[|fields| - 1].1)
    else
      var r := Get(fields[..|fields| - 1], key);
      assert forall i :: 0 <= i < |fields| - 1 ==> fields[..|fields| - 1][i] == fields[i];
      r
  }

  /**
   * `value?.key`: the property of an object; `None` (undefined) for every
   * other value and for a missing key.
   */
  function Property(j: Json, key: string): Option<Json> {
    if j.JObj? then Get(j.fields, key) else None
  }

  function HexDigit(d: nat): (c: char)
    requires d < 16
  {
    if d < 10 then ('0' as int + d) as char else ('a' as int + d - 10) as char
  }

  predicate IsHex(c: char) {
    ('0' <= c <= '9') || ('a' <= c <= 'f') || ('A' <= c <= 'F')
  }

  function HexValue(c: char): (d: nat)
    requires IsHex(c)
    ensures d < 16
  {
    if '0' <= c <= '9' then c as int - '0' as int
    else if 'a' <= c <= 'f' then c as int - 'a' as int + 10
    else c as int - 'A' as int + 10
  }

  lemma HexDigitValue(d: nat)
    requires d < 16
    ensures IsHex(HexDigit(d)) && HexValue(HexDigit(d)) == d
  {
  }

  const Backspace: char := 8 as char
  const FormFeed: char := 12 as char

  /** The two-character escapes of JSON, by the character they stand for. */
  function ShortEscape(c: char): Option<char> {
    if c == Backspace then Some('b')
    else if c == '\t' then Some('t')
    else if c == '\n' then Some('n')
    else if c == FormFeed then Some('f')
    else if c == '\r' then Some('r')
    else if c == '"' then Some('"')
    else if c == '\\' then Some('\\')
    else None
  }

  /** What the letter after a backslash stands for, when it is a two-character escape. */
  function ShortUnescape(e: char): Option<char> {
    if e == 'b' then Some(Backspace)
    else if e == 't' then Some('\t')
    else if e == 'n' then Some('\n')
    else if e == 'f' then Some(FormFeed)
    else if e == 'r' then Some('\r')
    else if e == '"' then Some('"')
    else if e == '\\' then Some('\\')
    else if e == '/' then Some('/')
    else None
  }

  /** How `JSON.stringify` writes one character inside a string literal. */
  function EscapeChar(c: char): string {
    match ShortEscape(c)
    case Some(e) => ['\\', e]
    case None =>
      if c as int < 0x20 then ['\\', 'u', '0', '0', HexDigit(c as int / 16), HexDigit(c as int % 16)]
      else [c]
  }

  function Escape(s: string): string {
    if s == [] then [] else EscapeChar(s[0]) + Escape(s[1..])
  }

  /** A character `JSON.stringify` writes as itself. */
  predicate Plain(c: char) {
    ShortEscape(c).None? && c as int >= 0x20
  }

  lemma {:induction false} EscapePlain(s: string)
    requires forall i :: 0 <= i < |s| ==> Plain(s[i])
    ensures Escape(s) == s
  {
    if s != [] {
      EscapePlain(s[1..]);
      assert [s[0]] + s[1..] == s;
    }
  }

  function Quote(s: string): string {
    "\"" + Escape(s) + "\""
  }

  function IntToString(n: int): string {
    if n < 0 then "-" + Strings.NatToString(-n) else Strings.NatToString(n)
  }

  /** `JSON.stringify(j)`, without indentation. */
  function Stringify(j: Json): string
    decreases j, 1
  {
    match j
    case JNull => "null"
    case JBool(b) => if b then "true" else "false"
    case JNum(n) => IntToString(n)
    case JStr(s) => Quote(s)
    case JArr(items) => "[" + StringifyItems(items) + "]"
    case JObj(fields) => "{" + StringifyFields(fields) + "}"
  }

  function StringifyItems(items: seq<Json>): string
    decreases items, 0
  {
    if items == [] then ""
    else if |items| == 1 then Stringify(items[0])
    else Stringify(items[0]) + "," + StringifyItems(items[1..])
  }

  function StringifyFields(fields: seq<(string, Json)>): string
    decreases fields, 0
  {
    if fields == [] then ""
    else
      assert fields[0] in fields && fields[0].1 < fields[0];
      var member := Quote(fields[0].0) + ":" + Stringify(fields[0].1);
      if |fields| == 1 then member else member + "," + StringifyFields(fields[1..])
  }

  function Prepend(c: char, rest: Option<string>): Option<string> {
    if rest.Some? then Some([c] + rest.value) else None
  }

  /**
   * Reads back the characters of a string literal's body: the inverse of
   * `Escape`. `None` for a malformed body (a raw quote or control character,
   * an unknown escape, a surrogate code unit).
   */
  function Unescape(s: string): Option<string>
    decreases |s|
  {
    if s == [] then Some([])
    else if s[0] == '\\' then
      if |s| < 2 then None
      else if s[1] == 'u' then
        if |s| < 6 || !(IsHex(s[2]) && IsHex(s[3]) && IsHex(s[4]) && IsHex(s[5])) then None
        else
          var v := ((HexValue(s[2]) * 16 + HexValue(s[3])) * 16 + HexValue(s[4])) * 16 + HexValue(s[5]);
          if 0xD800 <= v < 0xE000 then None else Prepend(v as char, Unescape(s[6..]))
      else
        match ShortUnescape(s[1])
        case Some(c) => Prepend(c, Unescape(s[2..]))
        case None => None
    else if s[0] == '"' || s[0] == '\\' || s[0] as int < 0x20 then None
    else Prepend(s[0], Unescape(s[1..]))
  }

  lemma UnescapeEscapeChar(c: char, rest: string)
    ensures Unescape(EscapeChar(c) + rest) == Prepend(c, Unescape(rest))
  {
    var s := EscapeChar(c) + rest;
    match ShortEscape(c)
    case Some(e) =>
      assert s[0] == '\\' && s[1] == e && s[2..] == rest;
    case None =>
      if c as int < 0x20 {
        var hi, lo := c as int / 16, c as int % 16;
        HexDigitValue(hi);
        HexDigitValue(lo);
        assert s[0] == '\\' && s[1] == 'u' && s[2] == '0' && s[3] == '0';
        assert s[4] == HexDigit(hi) && s[5] == HexDigit(lo) && s[6..] == rest;
      } else {
        assert s[0] == c && s[1..] == rest;
      }
  }

  /** Escaping loses nothing: the literal's body reads back as the string. */
  lemma {:induction false} UnescapeEscape(s: string)
    ensures Unescape(Escape(s)) == Some(s)
  {
    if s != [] {
      UnescapeEscape(s[1..]);
      UnescapeEscapeChar(s[0], Escape(s[1..]));
      assert [s[0]] + s[1..] == s;
    }
  }
}
