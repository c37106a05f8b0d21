/** The five-character HTML entity encoder (`esc` in app.js, `escapeHtml` in main.js) and its decoder. */
module Html {
  import opened Text

  /** The entity for one character; every other character stands for itself. */
  function EscChar(c: char): string
  {
    match c
    case '&' => "&amp;"
    case '<' => "&lt;"
    case '>' => "&gt;"
    case '"' => "&quot;"
    case '\'' => "&#39;"
    case _ => [c]
  }

  /** `String(s).replace(/[&<>"']/g, ...)`: each character replaced by its entity. */
  function Esc(s: string): string
  {
    if s == [] then "" else EscChar(s[0]) + Esc(s[1..])
  }

  predicate Special(c: char)
  {
    c == '&' || c == '<' || c == '>' || c == '"' || c == '\''
  }

  /** Reads the five entities back; any other character is kept. */
  function Unescape(t: string): string
    decreases |t|
  {
    if t == [] then ""
    else if t[0] != '&' then [t[0]] + Unescape(t[1..])
    else if StartsWith(t, "&amp;") then "&" + Unescape(t[5..])
    else if StartsWith(t, "&lt;") then "<" + Unescape(t[4..])
    else if StartsWith(t, "&gt;") then ">" + Unescape(t[4..])
    else if StartsWith(t, "&quot;") then "\"" + Unescape(t[6..])
    else if StartsWith(t, "&#39;") then "'" + Unescape(t[5..])
    else [t[0]] + Unescape(t[1..])
  }

  /** The encoder distributes over concatenation, so it works character by character. */
  lemma {:induction false} EscAppend(a: string, b: string)
    ensures Esc(a + b) == Esc(a) + Esc(b)
  {
    if a == [] {
      assert a + b == b;
    } else {
      assert (a + b)[0] == a[0] && (a + b)[1..] == a[1..] + b;
      EscAppend(a[1..], b);
    }
  }

  /** The character map: each of `& < > " '` becomes its entity, every other character is unchanged. */
  lemma EscCharMap(c: char)
    ensures Esc([c]) == EscChar(c)
    ensures c == '&' ==> Esc([c]) == "&amp;"
    ensures c == '<' ==> Esc([c]) == "&lt;"
    ensures c == '>' ==> Esc([c]) == "&gt;"
    ensures c == '"' ==> Esc([c]) == "&quot;"
    ensures c == '\'' ==> Esc([c]) == "&#39;"
    ensures !Special(c) ==> Esc([c]) == [c]
  {
    assert [c][1..] == [];
  }

  /** A string without special characters is left as it is. */
  lemma {:induction false} EscPlain(s: string)
    requires forall i :: 0 <= i < |s| ==> !Special(s[i])
    ensures Esc(s) == s
  {
    if s != [] {
      EscPlain(s[1..]);
      assert s == [s[0]] + s[1..];
    }
  }

  /** The output holds no raw `<`, `>`, `"` or `'`. */
  lemma {:induction false} EscNoRawSpecials(s: string)
    ensures forall i :: 0 <= i < |Esc(s)| ==> Esc(s)[i] !in "<>\"'"
  {
    if s != [] {
      EscNoRawSpecials(s[1..]);
      var head := EscChar(s[0]);
      assert forall i :: 0 <= i < |head| ==> head[i] !in "<>\"'";
      forall i | 0 <= i < |Esc(s)|
        ensures Esc(s)[i] !in "<>\"'"
      {
        if i >= |head| {
          assert Esc(s)[i] == Esc(s[1..])[i - |head|];
        }
      }
    }
  }

  /** A string whose character `k` differs from that of `p` does not start with `p`. */
  lemma NotStartsWith(t: string, p: string, k: nat)
    requires k < |p| && k < |t| && t[k] != p[k]
    ensures !StartsWith(t, p)
  {
  }

  lemma UnescapeStep(c: char, rest: string)
    ensures Unescape(EscChar(c) + rest) == [c] + Unescape(rest)
  {
    var t := EscChar(c) + rest;
    if c == '&' {
      assert t[..5] == "&amp;" && t[5..] == rest;
    } else if c == '<' {
      assert t[..4] == "&lt;" && t[4..] == rest;
      NotStartsWith(t, "&amp;", 1);
    } else if c == '>' {
      assert t[..4] == "&gt;" && t[4..] == rest;
      NotStartsWith(t, "&amp;", 1);
      NotStartsWith(t, "&lt;", 1);
    } else if c == '"' {
      assert t[..6] == "&quot;" && t[6..] == rest;
      NotStartsWith(t, "&amp;", 1);
      NotStartsWith(t, "&lt;", 1);
      NotStartsWith(t, "&gt;", 1);
    } else if c == '\'' {
      assert t[..5] == "&#39;" && t[5..] == rest;
      NotStartsWith(t, "&amp;", 1);
      NotStartsWith(t, "&lt;", 1);
      NotStartsWith(t, "&gt;", 1);
      NotStartsWith(t, "&quot;", 1);
    } else {
      assert t[0] == c && t[1..] == rest;
    }
  }

  /** Decoding undoes encoding, so the encoder loses no text and is injective. */
  lemma {:induction false} EscRoundTrip(s: string)
    ensures Unescape(Esc(s)) == s
  {
    if s != [] {
      UnescapeStep(s[0], Esc(s[1..]));
      EscRoundTrip(s[1..]);
      assert s == [s[0]] + s[1..];
    }
  }

  lemma EscInjective(a: string, b: string)
    requires Esc(a) == Esc(b)
    ensures a == b
  {
    EscRoundTrip(a);
    EscRoundTrip(b);
  }
}
