/** Blanks and trimming, as Go's strings.TrimSpace has them. */
module Blanks {
  /** Go's unicode.IsSpace. */
  predicate IsSpace(c: char) {
    || '\t' <= c <= '\r' || c == ' ' || c == '\U{85}' || c == '\U{A0}' || c == '\U{1680}'
    || '\U{2000}' <= c <= '\U{200A}' || c == '\U{2028}' || c == '\U{2029}' || c == '\U{202F}'
    || c == '\U{205F}' || c == '\U{3000}'
  }

  predicate Blank(s: string) {
    forall c :: c in s ==> IsSpace(c)
  }

  function TrimFront(s: string): string {
    if s != [] && IsSpace(s[0]) then TrimFront(s[1..]) else s
  }

  function TrimBack(s: string): string {
    if s != [] && IsSpace(s[|s| - 1]) then TrimBack(s[..|s| - 1]) else s
  }

  function TrimSpace(s: string): string { TrimBack(TrimFront(s)) }

  lemma {:induction false} FrontTrimmed(s: string)
    ensures var t := TrimFront(s);
            && |t| <= |s| && t == s[|s| - |t|..] && Blank(s[..|s| - |t|]) && (t != [] ==> !IsSpace(t[0]))
  {
    if s != [] && IsSpace(s[0]) {
      FrontTrimmed(s[1..]);
      var k := |s| - |TrimFront(s)|;
      assert s[1..][k - 1..] == s[k..] && s[..k] == [s[0]] + s[1..][..k - 1];
    }
  }

  lemma {:induction false} BackTrimmed(s: string)
    ensures var t := TrimBack(s);
            && |t| <= |s| && t == s[..|t|] && Blank(s[|t|..]) && (t != [] ==> !IsSpace(t[|t| - 1]))
  {
    if s != [] && IsSpace(s[|s| - 1]) {
      var k, n := |s| - 1, |TrimBack(s)|;
      BackTrimmed(s[..k]);
      assert s[..k][..n] == s[..n] && s[n..] == s[..k][n..] + [s[k]];
    }
  }

  /** What is left of a trimmed text is the stretch of it between its outer blanks. */
  lemma TrimMeans(s: string)
    ensures exists i, k :: 0 <= i <= k <= |s| && TrimSpace(s) == s[i..k] && Blank(s[..i]) && Blank(s[k..])
    ensures var t := TrimSpace(s); t != [] ==> !IsSpace(t[0]) && !IsSpace(t[|t| - 1])
  {
    var front := TrimFront(s);
    FrontTrimmed(s);
    BackTrimmed(front);
    var i, n := |s| - |front|, |TrimSpace(s)|;
    assert front == s[i..] && front[..n] == s[i..i + n] && front[n..] == s[i + n..];
    assert TrimSpace(s) == s[i..i + n] && Blank(s[..i]) && Blank(s[i + n..]);
  }

  lemma {:induction false} TrimBlankPrefix(w: string, s: string)
    requires Blank(w)
    ensures TrimSpace(w + s) == TrimSpace(s)
  {
    if w == [] {
      assert w + s == s;
    } else {
      assert w[0] in w;
      assert (w + s)[1..] == w[1..] + s;
      TrimBlankPrefix(w[1..], s);
    }
  }

  lemma {:induction false} TrimmedAway(s: string)
    ensures TrimSpace(s) == [] <==> Blank(s)
  {
    if s != [] {
      if IsSpace(s[0]) {
        TrimmedAway(s[1..]);
        assert s == [s[0]] + s[1..];
      } else {
        FirstStays(s);
      }
    }
  }

  lemma {:induction false} FirstStays(s: string)
    requires s != [] && !IsSpace(s[0])
    ensures TrimBack(s) != []
  {
    if IsSpace(s[|s| - 1]) {
      FirstStays(s[..|s| - 1]);
    }
  }
}
