/**
 * Escaping of text for embedding in XML character data, as done by
 * `System.Security.SecurityElement.Escape`: each of the five characters that
 * have a predefined entity in XML 1.0 (section 4.6 of the XML 1.0
 * specification) is replaced by its entity reference, every other character
 * is kept. `Unescape` is the matching decoder.
 */
module XmlEscape {
  import opened Sequences

  /** The characters that have a predefined entity. */
  predicate IsSpecial(c: char)
  {
    c == '<' || c == '>' || c == '&' || c == '"' || c == '\''
  }

  /** `s[i..]` begins with one of the five predefined entity references. */
  predicate EntityAt(s: string, i: nat)
    requires i <= |s|
  {
    var t := s[i..];
    StartsWith(t, "&lt;") || StartsWith(t, "&gt;") || StartsWith(t, "&quot;")
    || StartsWith(t, "&apos;") || StartsWith(t, "&amp;")
  }

  /**
   * Text that is safe as XML character data or attribute value: no raw
   * `<`, `>`, `"` or `'`, and every `&` begins an entity reference.
   */
  predicate Safe(s: string)
  {
    forall i :: 0 <= i < |s| ==>
      s[i] != '<' && s[i] != '>' && s[i] != '"' && s[i] != '\'' && (s[i] == '&' ==> EntityAt(s, i))
  }

  function EscapeChar(c: char): (e: string)
    ensures IsSpecial(c) <==> e != [c]
  {
    if c == '<' then "&lt;"
    else if c == '>' then "&gt;"
    else if c == '"' then "&quot;"
    else if c == '\'' then "&apos;"
    else if c == '&' then "&amp;"
    else [c]
  }

  lemma {:induction false} SafeConcat(a: string, b: string)
    requires Safe(a) && Safe(b)
    ensures Safe(a + b)
  {
    var s := a + b;
    forall i | 0 <= i < |s| && s[i] == '&'
      ensures EntityAt(s, i)
    {
      if i < |a| {
        assert a[i] == '&';
        assert EntityAt(a, i);
        assert s[i..] == a[i..] + b;
      } else {
        assert b[i - |a|] == '&';
        assert EntityAt(b, i - |a|);
        assert s[i..] == b[i - |a|..];
      }
    }
  }

  lemma EscapeCharSafe(c: char)
    ensures Safe(EscapeChar(c))
  {
  }

  /** `SecurityElement.Escape`: the per-character substitution. */
  function Escape(s: string): (r: string)
    ensures |r| >= |s|
  {
    if s == [] then [] else EscapeChar(s[0]) + Escape(s[1..])
  }

  /** Escaped text holds no raw `<`, `>`, `"` or `'`, and each of its `&` begins an entity reference. */
  lemma {:induction false} EscapeIsSafe(s: string)
    ensures Safe(Escape(s))
  {
    if s != [] {
      EscapeCharSafe(s[0]);
      EscapeIsSafe(s[1..]);
      SafeConcat(EscapeChar(s[0]), Escape(s[1..]));
    }
  }

  /** Decodes the five predefined entity references; every other character is kept. */
  function Unescape(s: string): (r: string)
    decreases |s|
  {
    if s == [] then []
    else if StartsWith(s, "&lt;") then "<" + Unescape(s[4..])
    else if StartsWith(s, "&gt;") then ">" + Unescape(s[4..])
    else if StartsWith(s, "&quot;") then "\"" + Unescape(s[6..])
    else if StartsWith(s, "&apos;") then "'" + Unescape(s[6..])
    else if StartsWith(s, "&amp;") then "&" + Unescape(s[5..])
    else [s[0]] + Unescape(s[1..])
  }

  lemma {:induction false} EscapeAppend(a: string, b: string)
    ensures Escape(a + b) == Escape(a) + Escape(b)
  {
    if a == [] {
      assert a + b == b;
    } else {
      assert (a + b)[1..] == a[1..] + b;
      EscapeAppend(a[1..], b);
    }
  }

  /** A text that does not begin with `&` unescapes its first character to itself. */
  lemma UnescapePlainHead(s: string)
    requires s != [] && s[0] != '&'
    ensures Unescape(s) == [s[0]] + Unescape(s[1..])
  {
    if |s| >= 4 { assert s[..4][0] != '&'; }
    if |s| >= 5 { assert s[..5][0] != '&'; }
    if |s| >= 6 { assert s[..6][0] != '&'; }
  }

  lemma UnescapeLt(t: string)
    ensures Unescape("&lt;" + t) == "<" + Unescape(t)
  {
    var s := "&lt;" + t;
    assert s[..4] == "&lt;" && s[4..] == t;
  }

  lemma UnescapeGt(t: string)
    ensures Unescape("&gt;" + t) == ">" + Unescape(t)
  {
    var s := "&gt;" + t;
    assert s[..4] == "&gt;" && s[4..] == t;
    assert s[..4] != "&lt;";
  }

  lemma UnescapeQuot(t: string)
    ensures Unescape("&quot;" + t) == "\"" + Unescape(t)
  {
    var s := "&quot;" + t;
    assert s[..6] == "&quot;" && s[6..] == t;
    assert s[..4][1] == 'q';
  }

  lemma UnescapeApos(t: string)
    ensures Unescape("&apos;" + t) == "'" + Unescape(t)
  {
    var s := "&apos;" + t;
    assert s[..6] == "&apos;" && s[6..] == t;
    assert s[..4][1] == 'a' && s[..6][1] == 'a';
  }

  lemma UnescapeAmp(t: string)
    ensures Unescape("&amp;" + t) == "&" + Unescape(t)
  {
    var s := "&amp;" + t;
    assert s[..5] == "&amp;" && s[5..] == t;
    assert s[..4][1] == 'a';
    assert |s| >= 6 ==> s[..6][1] == 'a' && s[..6][2] == 'm';
  }

  lemma UnescapeEscapedChar(c: char, t: string)
    ensures Unescape(EscapeChar(c) + t) == [c] + Unescape(t)
  {
    if c == '<' {
      UnescapeLt(t);
    } else if c == '>' {
      UnescapeGt(t);
    } else if c == '"' {
      UnescapeQuot(t);
    } else if c == '\'' {
      UnescapeApos(t);
    } else if c == '&' {
      UnescapeAmp(t);
    } else {
      var s := [c] + t;
      assert s[1..] == t;
      UnescapePlainHead(s);
    }
  }

  /** Unescaping the escaped text recovers the original text. */
  lemma {:induction false} UnescapeEscape(s: string)
    ensures Unescape(Escape(s)) == s
  {
    if s != [] {
      UnescapeEscapedChar(s[0], Escape(s[1..]));
      UnescapeEscape(s[1..]);
    }
  }

  lemma SafeSuffix(s: string, k: nat)
    requires Safe(s) && k <= |s|
    ensures Safe(s[k..])
  {
    var t := s[k..];
    forall i | 0 <= i < |t| && t[i] == '&'
      ensures EntityAt(t, i)
    {
      assert s[k + i] == '&';
      assert EntityAt(s, k + i);
      assert t[i..] == s[k + i..];
    }
  }

  /**
   * Escape is onto the safe texts: a safe text is the escaping of its
   * unescaping. Together with UnescapeEscape, Escape is a bijection between
   * all texts and the safe ones.
   */
  lemma {:induction false} EscapeUnescape(s: string)
    requires Safe(s)
    ensures Escape(Unescape(s)) == s
    decreases |s|
  {
    if s == [] {
    } else if StartsWith(s, "&lt;") {
      EntityStep(s, 4, '<');
    } else if StartsWith(s, "&gt;") {
      EntityStep(s, 4, '>');
    } else if StartsWith(s, "&quot;") {
      EntityStep(s, 6, '"');
    } else if StartsWith(s, "&apos;") {
      EntityStep(s, 6, '\'');
    } else if StartsWith(s, "&amp;") {
      EntityStep(s, 5, '&');
    } else {
      assert s[0..] == s;
      assert s[0] != '&';
      EntityStep(s, 1, s[0]);
    }
  }

  /** One step of EscapeUnescape: `s` begins with the `n` characters that escape `c`. */
  lemma {:induction false} EntityStep(s: string, n: nat, c: char)
    requires Safe(s) && 0 < n <= |s| && s[..n] == EscapeChar(c)
    requires Unescape(s) == [c] + Unescape(s[n..])
    ensures Escape(Unescape(s)) == s
    decreases |s|, 0
  {
    var rest := s[n..];
    SafeSuffix(s, n);
    EscapeUnescape(rest);
    PrefixStep(s, n, c, Unescape(rest));
  }

  lemma PrefixStep(s: string, n: nat, c: char, u: string)
    requires n <= |s| && s[..n] == EscapeChar(c) && Escape(u) == s[n..]
    ensures Escape([c] + u) == s
  {
    EscapeAppend([c], u);
    EscapeSingle(c);
    assert s == s[..n] + s[n..];
  }

  lemma EscapeSingle(c: char)
    ensures Escape([c]) == EscapeChar(c)
  {
    assert Escape([c]) == EscapeChar(c) + Escape([]);
  }

  /** Escaping changes a text exactly when it holds one of the five characters. */
  lemma {:induction false} EscapeIdentity(s: string)
    ensures Escape(s) == s <==> forall i :: 0 <= i < |s| ==> !IsSpecial(s[i])
  {
    if s != [] {
      EscapeIdentity(s[1..]);
      var e := EscapeChar(s[0]);
      if IsSpecial(s[0]) {
        assert |e| > 1;
        assert |Escape(s)| > |s|;
      } else {
        assert e == [s[0]];
        if Escape(s[1..]) == s[1..] {
          assert Escape(s) == s;
        } else {
          assert Escape(s)[1..] == Escape(s[1..]);
          var j :| 0 <= j < |s[1..]| && IsSpecial(s[1..][j]);
          assert IsSpecial(s[j + 1]);
        }
      }
    }
  }
}
