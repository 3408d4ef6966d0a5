/**
 * The three string operations of Go's `strings` package that the health gate
 * relies on: `TrimSpace` (probe body comparison), `Contains` and `HasPrefix`
 * (content negotiation in the request gate). Strings are sequences of
 * Unicode scalar values.
 */
module Text {

  /** Go's `unicode.IsSpace`: the characters with the Unicode White_Space property. */
  predicate IsSpace(c: char)
  {
    || c == '\t' || c == '\n' || c == '\U{000B}' || c == '\U{000C}' || c == '\r' || c == ' '
    || c == '\U{0085}' || c == '\U{00A0}' || c == '\U{1680}'
    || ('\U{2000}' <= c <= '\U{200A}')
    || c == '\U{2028}' || c == '\U{2029}' || c == '\U{202F}' || c == '\U{205F}' || c == '\U{3000}'
  }

  /**
   * The white-space set: on ASCII exactly tab, line feed, vertical tab, form
   * feed, carriage return and space; in Latin-1 also NEL and no-break space;
   * beyond that, the White_Space characters of the Unicode standard.
   */
  lemma SpaceClasses(c: char)
    ensures c < '\U{0080}' ==> (IsSpace(c) <==> c in "\t\n\U{000B}\U{000C}\r ")
    ensures '\U{0080}' <= c <= '\U{00FF}' ==> (IsSpace(c) <==> c == '\U{0085}' || c == '\U{00A0}')
    ensures IsSpace('\U{3000}') && IsSpace('\U{2028}') && !IsSpace('\U{200B}') && !IsSpace('\U{FEFF}')
  {
  }

  predicate AllSpace(s: string)
  {
    forall i :: 0 <= i < |s| ==> IsSpace(s[i])
  }

  /** The recursive step of `TrimLeft`: a leading space joins the trimmed prefix. */
  lemma TrimLeftCons(s: string, r: string)
    requires s != [] && IsSpace(s[0])
    requires |r| <= |s[1..]| && r == s[1..][|s[1..]| - |r|..]
    requires AllSpace(s[1..][..|s[1..]| - |r|])
    ensures r == s[|s| - |r|..] && AllSpace(s[..|s| - |r|])
  {
    var k := |s| - |r|;
    assert s[1..][|s[1..]| - |r|..] == s[k..];
    forall i | 0 < i < k
      ensures IsSpace(s[..k][i])
    {
      assert s[..k][i] == s[1..][..k - 1][i - 1];
    }
  }

  lemma AllSpaceSnoc(s: string, k: nat)
    requires k < |s| && IsSpace(s[|s| - 1]) && AllSpace(s[..|s| - 1][k..])
    ensures AllSpace(s[k..])
  {
    forall i | 0 <= i < |s| - k - 1
      ensures IsSpace(s[k..][i])
    {
      assert s[k..][i] == s[..|s| - 1][k..][i];
    }
  }

  /** Drops leading white space: the result is the suffix of `s` that starts at its first non-space character. */
  function TrimLeft(s: string): (r: string)
    ensures |r| <= |s| && r == s[|s| - |r|..]
    ensures AllSpace(s[..|s| - |r|])
    ensures r == [] || !IsSpace(r[0])
  {
    if s != [] && IsSpace(s[0]) then
      var r := TrimLeft(s[1..]);
      TrimLeftCons(s, r);
      r
    else s
  }

  /** Drops trailing white space: the result is the prefix of `s` that ends at its last non-space character. */
  function TrimRight(s: string): (r: string)
    ensures |r| <= |s| && r == s[..|r|]
    ensures AllSpace(s[|r|..])
    ensures r == [] || !IsSpace(r[|r| - 1])
  {
    if s != [] && IsSpace(s[|s| - 1]) then
      var r := TrimRight(s[..|s| - 1]);
      AllSpaceSnoc(s, |r|);
      r
    else s
  }

  /**
   * Go's `strings.TrimSpace`: `s` without its leading and trailing white space,
   * all of it: the result neither starts nor ends with white space
   * (`TrimSpaceIsSlice` shows that nothing else is cut).
   */
  function TrimSpace(s: string): (t: string)
    ensures |t| <= |s|
    ensures t == [] || (!IsSpace(t[0]) && !IsSpace(t[|t| - 1]))
  {
    var l := TrimLeft(s);
    var t := TrimRight(l);
    assert t != [] ==> t[0] == l[0];
    t
  }

  /** Go's `strings.HasPrefix`: `s` is `prefix` followed by something. */
  predicate HasPrefix(s: string, prefix: string): (r: bool)
    ensures r <==> exists rest :: s == prefix + rest
  {
    if |prefix| <= |s| && s[..|prefix|] == prefix then
      assert s == prefix + s[|prefix|..];
      true
    else
      assert forall rest :: s == prefix + rest ==> s[..|prefix|] == prefix;
      false
  }

  /** `sub` occurs in `s` starting at index `i`. */
  predicate OccursAt(s: string, sub: string, i: int)
  {
    0 <= i && i + |sub| <= |s| && s[i..i + |sub|] == sub
  }

  /** Go's `strings.Contains`: a plain substring search. */
  function Contains(s: string, sub: string): (r: bool)
    ensures r <==> exists i :: OccursAt(s, sub, i)
  {
    if |s| < |sub| then false
    else if s[..|sub|] == sub then (assert OccursAt(s, sub, 0); true)
    else
      var r := Contains(s[1..], sub);
      assert forall i :: OccursAt(s[1..], sub, i) <==> OccursAt(s, sub, i + 1);
      assert !OccursAt(s, sub, 0);
      assert forall i :: OccursAt(s, sub, i) ==> i == 0 || OccursAt(s[1..], sub, i - 1);
      r
  }

  /** A string occurs in any string built around it. */
  lemma {:induction false} OccursInside(a: string, sub: string, b: string)
    ensures Contains(a + sub + b, sub)
  {
    var s := a + sub + b;
    assert s[|a|..|a| + |sub|] == sub;
    assert OccursAt(s, sub, |a|);
  }

  /** Both middle parts of a five-part concatenation occur in it. */
  lemma PageShape(head: string, title: string, style: string, heading: string, tail: string)
    ensures Contains(head + title + style + heading + tail, title)
    ensures Contains(head + title + style + heading + tail, heading)
  {
    assert head + title + style + heading + tail == head + title + (style + heading + tail);
    OccursInside(head, title, style + heading + tail);
    assert head + title + style + heading + tail == (head + title + style) + heading + tail;
    OccursInside(head + title + style, heading, tail);
  }

  /** Trimming is a projection: a trimmed string has nothing left to trim. */
  lemma {:induction false} TrimSpaceIdempotent(s: string)
    ensures TrimSpace(TrimSpace(s)) == TrimSpace(s)
  {
    var t := TrimSpace(s);
    TrimLeftNoop(t);
    assert TrimLeft(t) == t;
    TrimRightNoop(t);
  }

  lemma TrimLeftNoop(s: string)
    requires s == [] || !IsSpace(s[0])
    ensures TrimLeft(s) == s
  {
  }

  lemma TrimRightNoop(s: string)
    requires s == [] || !IsSpace(s[|s| - 1])
    ensures TrimRight(s) == s
  {
  }

  /** The trimmed string is a slice of the input with only white space cut off either side, and no white space left at its ends. */
  lemma TrimSpaceIsSlice(s: string)
    ensures exists i, j :: 0 <= i <= j <= |s| && TrimSpace(s) == s[i..j]
                           && AllSpace(s[..i]) && AllSpace(s[j..])
    ensures TrimSpace(s) == [] || (!IsSpace(TrimSpace(s)[0]) && !IsSpace(TrimSpace(s)[|TrimSpace(s)| - 1]))
  {
    var l := TrimLeft(s);
    var i := |s| - |l|;
    var r := TrimRight(l);
    var j := i + |r|;
    assert l == s[i..];
    assert r == s[i..j];
    assert AllSpace(s[..i]);
    assert s[j..] == l[|r|..];
    assert AllSpace(s[j..]);
    assert TrimSpace(s) == r;
    assert 0 <= i <= j <= |s| && TrimSpace(s) == s[i..j] && AllSpace(s[..i]) && AllSpace(s[j..]);
  }

  /** Leading white space in front of a string makes no difference to `TrimLeft`. */
  lemma {:induction false} TrimLeftSkipsSpace(w: string, s: string)
    requires AllSpace(w)
    ensures TrimLeft(w + s) == TrimLeft(s)
  {
    if w != [] {
      assert (w + s)[0] == w[0] && (w + s)[1..] == w[1..] + s;
      TrimLeftSkipsSpace(w[1..], s);
    } else {
      assert w + s == s;
    }
  }

  /** Trailing white space after a string makes no difference to `TrimRight`. */
  lemma {:induction false} TrimRightSkipsSpace(s: string, w: string)
    requires AllSpace(w)
    ensures TrimRight(s + w) == TrimRight(s)
  {
    if w != [] {
      assert (s + w)[..|s + w| - 1] == s + w[..|w| - 1];
      TrimRightSkipsSpace(s, w[..|w| - 1]);
    } else {
      assert s + w == s;
    }
  }

  /** `TrimLeft` of a concatenation: the second part survives whole unless the first part is all white space. */
  lemma {:induction false} TrimLeftAppend(s: string, t: string)
    ensures TrimLeft(s + t) == if TrimLeft(s) == [] then TrimLeft(t) else TrimLeft(s) + t
  {
    if s == [] {
      assert s + t == t;
    } else if IsSpace(s[0]) {
      assert (s + t)[1..] == s[1..] + t;
      TrimLeftAppend(s[1..], t);
    }
  }

  /** Surrounding white space is invisible to `TrimSpace`: padding a string on either side keeps its trimmed form. */
  lemma PaddingInvisible(w1: string, s: string, w2: string)
    requires AllSpace(w1) && AllSpace(w2)
    ensures TrimSpace(w1 + s + w2) == TrimSpace(s)
  {
    assert w1 + s + w2 == w1 + (s + w2);
    TrimLeftSkipsSpace(w1, s + w2);
    TrimLeftAppend(s, w2);
    if TrimLeft(s) == [] {
      TrimLeftSkipsSpace(w2, []);
      assert w2 + [] == w2;
      assert TrimLeft(w2) == TrimLeft([]);
    } else {
      TrimRightSkipsSpace(TrimLeft(s), w2);
    }
  }

  /** Only the outside is trimmed: a string that starts and ends with a non-space character is its own trimmed form, inner white space included. */
  lemma InnerSpaceKept(s: string)
    requires s != [] && !IsSpace(s[0]) && !IsSpace(s[|s| - 1])
    ensures TrimSpace(s) == s
  {
  }
}
