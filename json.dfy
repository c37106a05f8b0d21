/**
 * `JSON.stringify` of an array of strings (how the favourites are written to storage) and a
 * reader for that form (what `JSON.parse` gives back for it).
 */
module Json {
  import opened Text
  import opened Options

  function HexDigit(n: int): char
    requires 0 <= n < 16
  {
    if n < 10 then ('0' as int + n) as char else ('a' as int + n - 10) as char
  }

  predicate IsHexDigit(c: char)
  {
    '0' <= c <= '9' || 'a' <= c <= 'f'
  }

  function HexValue(c: char): (n: int)
    requires IsHexDigit(c)
    ensures 0 <= n < 16
  {
    if c <= '9' then c as int - '0' as int else c as int - 'a' as int + 10
  }

  /** One character of a JSON string literal: the short escapes, `\u00xx` for other control characters. */
  function EscapeChar(c: char): string
  {
    if c == '"' then "\\\""
    else if c == '\\' then "\\\\"
    else if c as int == 8 then "\\b"
    else if c as int == 9 then "\\t"
    else if c as int == 10 then "\\n"
    else if c as int == 12 then "\\f"
    else if c as int == 13 then "\\r"
    else if c as int < 0x20 then "\\u00" + [HexDigit(c as int / 16), HexDigit(c as int % 16)]
    else [c]
  }

  function EscapeString(s: string): string
  {
    if s == [] then "" else EscapeChar(s[0]) + EscapeString(s[1..])
  }

  function Quote(s: string): string
  {
    "\"" + EscapeString(s) + "\""
  }

  function Quoted(xs: seq<string>): seq<string>
  {
    seq(|xs|, i requires 0 <= i < |xs| => Quote(xs[i]))
  }

  /** `JSON.stringify(xs)` for an array of strings: no spaces, items separated by commas. */
  function Stringify(xs: seq<string>): string
  {
    "[" + Join(Quoted(xs), ",") + "]"
  }

  /** Reads one character (escaped or not) at the start of `t`: the character and the length read. */
  function CharAt(t: string): (r: Option<(char, nat)>)
    requires t != []
    ensures r.Some? ==> 1 <= r.value.1 <= |t|
  {
    if t[0] != '\\' then Some((t[0], 1))
    else if |t| < 2 then None
    else if t[1] == '"' then Some(('"', 2))
    else if t[1] == '\\' then Some(('\\', 2))
    else if t[1] == 'b' then Some((8 as char, 2))
    else if t[1] == 't' then Some((9 as char, 2))
    else if t[1] == 'n' then Some((10 as char, 2))
    else if t[1] == 'f' then Some((12 as char, 2))
    else if t[1] == 'r' then Some((13 as char, 2))
    else if t[1] == 'u' && |t| >= 6 && t[2] == '0' && t[3] == '0' && IsHexDigit(t[4]) && IsHexDigit(t[5])
    then Some(((16 * HexValue(t[4]) + HexValue(t[5])) as char, 6))
    else None
  }

  /** Reads the body of a string literal up to its closing quote: the text and what follows. */
  function ParseChars(t: string): (r: Option<(string, string)>)
    ensures r.Some? ==> |r.value.1| < |t|
    decreases |t|
  {
    if t == [] then None
    else if t[0] == '"' then Some(("", t[1..]))
    else match CharAt(t)
      case None => None
      case Some((c, n)) =>
        match ParseChars(t[n..])
        case None => None
        case Some((s, rest)) => Some(([c] + s, rest))
  }

  /** Reads `"a","b",...]`: one or more string literals separated by commas, then the closing bracket. */
  function ParseItems(t: string): Option<seq<string>>
    decreases |t|
  {
    if t == [] || t[0] != '"' then None
    else match ParseChars(t[1..])
      case None => None
      case Some((s, rest)) =>
        if rest == "]" then Some([s])
        else if rest != [] && rest[0] == ',' then
          match ParseItems(rest[1..])
          case None => None
          case Some(more) => Some([s] + more)
        else None
  }

  /** `JSON.parse` on the compact form of an array of strings; `None` for any other text. */
  function Parse(t: string): Option<seq<string>>
  {
    if t == "[]" then Some([])
    else if t != [] && t[0] == '[' then ParseItems(t[1..])
    else None
  }

  lemma HexRoundTrip(n: int)
    requires 0 <= n < 16
    ensures IsHexDigit(HexDigit(n)) && HexValue(HexDigit(n)) == n
  {
  }

  lemma CharAtEscape(c: char, rest: string)
    ensures EscapeChar(c) != [] && EscapeChar(c)[0] != '"'
    ensures CharAt(EscapeChar(c) + rest) == Some((c, |EscapeChar(c)|))
  {
    var t := EscapeChar(c) + rest;
    if c != '"' && c != '\\' && c as int !in {8, 9, 10, 12, 13} && c as int < 0x20 {
      HexRoundTrip(c as int / 16);
      HexRoundTrip(c as int % 16);
      assert t[..6] == EscapeChar(c);
      assert t[1] == 'u' && t[2] == '0' && t[3] == '0';
      assert t[4] == HexDigit(c as int / 16) && t[5] == HexDigit(c as int % 16);
      assert 16 * (c as int / 16) + c as int % 16 == c as int;
    } else if c != '"' && c != '\\' && c as int >= 0x20 {
      assert t[0] == c;
    } else {
      assert t[..2] == EscapeChar(c);
    }
  }

  /** The body of a quoted string reads back as the string, leaving what follows the closing quote. */
  lemma {:induction false} ParseCharsRoundTrip(s: string, rest: string)
    ensures ParseChars(EscapeString(s) + "\"" + rest) == Some((s, rest))
  {
    var t := EscapeString(s) + "\"" + rest;
    if s == [] {
      assert t == "\"" + rest;
      assert t[1..] == rest;
    } else {
      var e := EscapeChar(s[0]);
      var tail := EscapeString(s[1..]) + "\"" + rest;
      assert t == e + tail;
      CharAtEscape(s[0], tail);
      assert t[|e|..] == tail;
      ParseCharsRoundTrip(s[1..], rest);
      assert s == [s[0]] + s[1..];
    }
  }

  lemma QuotedJoinHead(xs: seq<string>)
    requires xs != []
    ensures Join(Quoted(xs), ",")
         == Quote(xs[0]) + (if |xs| == 1 then "" else "," + Join(Quoted(xs[1..]), ","))
  {
    var q := Quoted(xs);
    assert q[0] == Quote(xs[0]);
    if |xs| > 1 {
      assert q[1..] == Quoted(xs[1..]);
    }
  }

  /** A last literal followed by the closing bracket reads as a one-item list. */
  lemma ParseItemsLast(x: string)
    ensures ParseItems(Quote(x) + "]") == Some([x])
  {
    var t := Quote(x) + "]";
    assert t[1..] == EscapeString(x) + "\"" + "]";
    ParseCharsRoundTrip(x, "]");
  }

  /** A literal, a comma and a readable rest read as the literal followed by the rest's items. */
  lemma ParseItemsCons(x: string, rest: string, more: seq<string>)
    requires ParseItems(rest) == Some(more)
    ensures ParseItems(Quote(x) + ("," + rest)) == Some([x] + more)
  {
    var after := "," + rest;
    var t := Quote(x) + after;
    assert t[0] == '"';
    assert t[1..] == EscapeString(x) + "\"" + after;
    ParseCharsRoundTrip(x, after);
    assert after[0] == ',' && after[1..] == rest;
    assert after != "]" by {
      assert after[0] != "]"[0];
    }
  }

  /** The text after the opening bracket, built item by item. */
  function ItemsText(xs: seq<string>): string
    requires xs != []
  {
    if |xs| == 1 then Quote(xs[0]) + "]" else Quote(xs[0]) + ("," + ItemsText(xs[1..]))
  }

  lemma {:induction false} ItemsTextJoin(xs: seq<string>)
    requires xs != []
    ensures Join(Quoted(xs), ",") + "]" == ItemsText(xs)
  {
    QuotedJoinHead(xs);
    if |xs| > 1 {
      ItemsTextJoin(xs[1..]);
    }
  }

  lemma {:induction false} ParseItemsRoundTrip(xs: seq<string>)
    requires xs != []
    ensures ParseItems(ItemsText(xs)) == Some(xs)
  {
    if |xs| == 1 {
      ParseItemsLast(xs[0]);
      assert xs == [xs[0]];
    } else {
      ParseItemsRoundTrip(xs[1..]);
      ParseItemsCons(xs[0], ItemsText(xs[1..]), xs[1..]);
      assert xs == [xs[0]] + xs[1..];
    }
  }

  /** Reading back what was written gives the same list, in the same order. */
  lemma ParseStringify(xs: seq<string>)
    ensures Parse(Stringify(xs)) == Some(xs)
  {
    var t := Stringify(xs);
    if xs == [] {
      assert Quoted(xs) == [];
      assert t == "[]";
    } else {
      var j := Join(Quoted(xs), ",");
      JoinContains(Quoted(xs), ",", 0);
      assert |j| >= |Quote(xs[0])| >= 2;
      assert t != "[]";
      assert t[1..] == j + "]";
      ItemsTextJoin(xs);
      ParseItemsRoundTrip(xs);
    }
  }
}
