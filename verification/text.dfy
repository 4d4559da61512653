/**
 * String helpers the proxy relies on: Go's strings.ToLower and
 * strings.Contains (used by the Content-Encoding test) and the canonical
 * form of a MIME header key that Header.Add and Header.Get look keys up by.
 */
module Text {

  /** Lowercase of one character, as unicode.ToLower gives it, for every
      character whose lowercase form is an ASCII letter; every other
      character is kept (see README, "Left out"). */
  function LowerRune(c: char): char {
    if 'A' <= c <= 'Z' then (c as int + 32) as char
    else if c == '\U{0130}' then 'i'   // LATIN CAPITAL LETTER I WITH DOT ABOVE
    else if c == '\U{212A}' then 'k'   // KELVIN SIGN
    else c
  }

  /** strings.ToLower: every capital letter becomes its lower case, no
      ASCII capital is left, and every other character is kept where it was. */
  function Lower(s: string): (r: string)
    ensures |r| == |s|
    ensures forall i :: 0 <= i < |s| && 'A' <= s[i] <= 'Z' ==> r[i] as int == s[i] as int + 32
    ensures forall i :: 0 <= i < |s| && s[i] == '\U{0130}' ==> r[i] == 'i'
    ensures forall i :: 0 <= i < |s| && s[i] == '\U{212A}' ==> r[i] == 'k'
    ensures forall i :: 0 <= i < |r| ==> !('A' <= r[i] <= 'Z')
    ensures forall i :: 0 <= i < |s| && !('A' <= s[i] <= 'Z') && s[i] != '\U{0130}' && s[i] != '\U{212A}' ==>
      r[i] == s[i]
  {
    seq(|s|, i requires 0 <= i < |s| => LowerRune(s[i]))
  }

  /** `t` occurs in `s` starting at offset `i`. */
  predicate OccursAt(s: string, t: string, i: int) {
    0 <= i && i + |t| <= |s| && s[i..i + |t|] == t
  }

  /** strings.Contains: a left-to-right search for `t` in `s`. */
  function Contains(s: string, t: string): (r: bool)
    ensures r <==> exists i :: OccursAt(s, t, i)
    decreases |s|
  {
    if |s| < |t| then false
    else if s[..|t|] == t then
      assert OccursAt(s, t, 0);
      true
    else
      assert forall i :: OccursAt(s, t, i) ==> i > 0 && OccursAt(s[1..], t, i - 1) by {
        forall i | OccursAt(s, t, i)
          ensures i > 0 && OccursAt(s[1..], t, i - 1)
        {
          assert s[1..][i - 1..i - 1 + |t|] == s[i..i + |t|];
        }
      }
      assert forall j :: OccursAt(s[1..], t, j) ==> OccursAt(s, t, j + 1) by {
        forall j | OccursAt(s[1..], t, j)
          ensures OccursAt(s, t, j + 1)
        {
          assert s[1..][j..j + |t|] == s[j + 1..j + 1 + |t|];
        }
      }
      Contains(s[1..], t)
  }

  /** Offset `i` of `encoding` spells "gzip" once lowercased. */
  predicate GzipAt(encoding: string, i: int) {
    && 0 <= i && i + 4 <= |encoding|
    && LowerRune(encoding[i]) == 'g' && LowerRune(encoding[i + 1]) == 'z'
    && LowerRune(encoding[i + 2]) == 'i' && LowerRune(encoding[i + 3]) == 'p'
  }

  /** isGzipContent (and the same test inlined in logResponse): the
      lowercased encoding contains "gzip". */
  function IsGzipContent(encoding: string): (r: bool)
    ensures r <==> exists i :: GzipAt(encoding, i)
  {
    var low := Lower(encoding);
    forall i
      ensures OccursAt(low, "gzip", i) <==> GzipAt(encoding, i)
    {
      if 0 <= i && i + 4 <= |encoding| {
        var w := low[i..i + 4];
        assert w[0] == LowerRune(encoding[i]) && w[1] == LowerRune(encoding[i + 1]);
        assert w[2] == LowerRune(encoding[i + 2]) && w[3] == LowerRune(encoding[i + 3]);
        assert w == "gzip" <==> w[0] == 'g' && w[1] == 'z' && w[2] == 'i' && w[3] == 'p';
      }
    }
    Contains(low, "gzip")
  }

  /** The test ignores case and finds "gzip" anywhere in the value. */
  lemma IsGzipContentExamples()
    ensures IsGzipContent("gzip") && IsGzipContent("GZIP") && IsGzipContent("x-gzip")
    ensures IsGzipContent("deflate, gzip")
    ensures !IsGzipContent("") && !IsGzipContent("deflate") && !IsGzipContent("identity")
  {
    assert GzipAt("gzip", 0) && GzipAt("GZIP", 0) && GzipAt("x-gzip", 2) && GzipAt("deflate, gzip", 9);
    assert forall i :: !GzipAt("deflate", i);
    assert forall i :: !GzipAt("identity", i);
  }

  /** A byte that may appear in an HTTP header field name (an RFC 9110 token character). */
  predicate IsTokenChar(c: char) {
    || 'a' <= c <= 'z' || 'A' <= c <= 'Z' || '0' <= c <= '9'
    || c == '!' || c == '#' || c == '$' || c == '%' || c == '&' || c == '\'' || c == '*'
    || c == '+' || c == '-' || c == '.' || c == '^' || c == '_' || c == '`' || c == '|' || c == '~'
  }

  function UpperAscii(c: char): char {
    if 'a' <= c <= 'z' then (c as int - 32) as char else c
  }

  function LowerAscii(c: char): char {
    if 'A' <= c <= 'Z' then (c as int + 32) as char else c
  }

  /** The case rewrite of textproto's canonicalMIMEHeaderKey: a letter is
      upper-cased at the start of the key and after each '-', lower-cased
      everywhere else. */
  function Recase(s: string, upper: bool): string
    decreases |s|
  {
    if s == [] then []
    else
      var c := if upper then UpperAscii(s[0]) else LowerAscii(s[0]);
      [c] + Recase(s[1..], c == '-')
  }

  /** textproto.CanonicalMIMEHeaderKey: keys holding any non-token
      character are returned unchanged; the others are recased, which keeps
      their length and every character's letter (CanonicalKeyAt). */
  function CanonicalKey(key: string): (r: string)
    ensures |r| == |key|
    ensures r != key ==> forall i :: 0 <= i < |key| ==> IsTokenChar(key[i])
  {
    if forall i :: 0 <= i < |key| ==> IsTokenChar(key[i]) then
      RecaseAt(key, true);
      Recase(key, true)
    else key
  }

  /** The canonical key, character by character. */
  lemma CanonicalKeyAt(key: string)
    ensures |CanonicalKey(key)| == |key|
    ensures (forall i :: 0 <= i < |key| ==> IsTokenChar(key[i])) ==>
      forall i :: 0 <= i < |key| ==>
        CanonicalKey(key)[i] == if i == 0 || key[i - 1] == '-' then UpperAscii(key[i]) else LowerAscii(key[i])
    ensures (exists i :: 0 <= i < |key| && !IsTokenChar(key[i])) ==> CanonicalKey(key) == key
  {
    RecaseAt(key, true);
  }

  lemma {:induction false} RecaseAt(s: string, upper: bool)
    ensures |Recase(s, upper)| == |s|
    ensures forall i :: 0 <= i < |s| ==>
      Recase(s, upper)[i] == if (i == 0 && upper) || (i > 0 && s[i - 1] == '-')
                             then UpperAscii(s[i]) else LowerAscii(s[i])
    decreases |s|
  {
    if s != [] {
      var c := if upper then UpperAscii(s[0]) else LowerAscii(s[0]);
      RecaseAt(s[1..], c == '-');
      assert (c == '-') == (s[0] == '-');
      forall i | 0 < i < |s|
        ensures Recase(s, upper)[i] == if s[i - 1] == '-' then UpperAscii(s[i]) else LowerAscii(s[i])
      {
        assert Recase(s, upper)[i] == Recase(s[1..], c == '-')[i - 1];
        assert s[1..][i - 1] == s[i];
        if i > 1 { assert s[1..][i - 2] == s[i - 1]; }
      }
    }
  }

  /** A key Header.Add stores under itself. */
  predicate IsCanonical(key: string) {
    CanonicalKey(key) == key
  }

  /** A key made of token characters that is already cased the canonical
      way is its own canonical form. */
  lemma CanonicalWhenCased(key: string)
    requires forall i :: 0 <= i < |key| ==> IsTokenChar(key[i])
    requires forall i :: 0 <= i < |key| ==>
      key[i] == if i == 0 || key[i - 1] == '-' then UpperAscii(key[i]) else LowerAscii(key[i])
    ensures IsCanonical(key)
  {
    CanonicalKeyAt(key);
    var r := CanonicalKey(key);
    forall i | 0 <= i < |key|
      ensures r[i] == key[i]
    {
      assert r[i] == if i == 0 || key[i - 1] == '-' then UpperAscii(key[i]) else LowerAscii(key[i]);
    }
  }

  /** How the two ASCII case maps act on header-name characters. */
  lemma CaseMaps(c: char)
    ensures IsTokenChar(c) ==> IsTokenChar(UpperAscii(c)) && IsTokenChar(LowerAscii(c))
    ensures (UpperAscii(c) == '-') == (c == '-') && (LowerAscii(c) == '-') == (c == '-')
    ensures UpperAscii(UpperAscii(c)) == UpperAscii(c) && LowerAscii(LowerAscii(c)) == LowerAscii(c)
  {
  }

  /** Canonicalising twice changes nothing more: every stored key is canonical. */
  lemma {:induction false} CanonicalKeyIdempotent(key: string)
    ensures IsCanonical(CanonicalKey(key))
  {
    var r := CanonicalKey(key);
    CanonicalKeyAt(key);
    CanonicalKeyAt(r);
    if forall i :: 0 <= i < |key| ==> IsTokenChar(key[i]) {
      forall i | 0 <= i < |r|
        ensures IsTokenChar(r[i]) && (r[i] == '-') == (key[i] == '-')
      {
        CaseMaps(key[i]);
        assert r[i] == if i == 0 || key[i - 1] == '-' then UpperAscii(key[i]) else LowerAscii(key[i]);
      }
      var rr := CanonicalKey(r);
      forall i | 0 <= i < |r|
        ensures rr[i] == r[i]
      {
        CaseMaps(key[i]);
        assert r[i] == if i == 0 || key[i - 1] == '-' then UpperAscii(key[i]) else LowerAscii(key[i]);
        assert rr[i] == if i == 0 || r[i - 1] == '-' then UpperAscii(r[i]) else LowerAscii(r[i]);
      }
    }
  }
}
