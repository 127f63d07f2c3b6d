/**
 * Whitespace trimming as done by JavaScript's `String.prototype.trim`
 * (ECMA-262): remove every leading and trailing code point that is
 * WhiteSpace or a LineTerminator.  The autoformat detector compares the
 * trimmed text of a block against its trigger literals.
 */
module Text {

  /** WhiteSpace (TAB, VT, FF, SP, NBSP, ZWNBSP, Unicode category Zs) and LineTerminator (LF, CR, LS, PS). */
  predicate IsWhitespace(c: char)
  {
    || c == '\U{0009}' || c == '\U{000A}' || c == '\U{000B}' || c == '\U{000C}' || c == '\U{000D}'
    || c == '\U{0020}' || c == '\U{00A0}' || c == '\U{1680}'
    || ('\U{2000}' <= c <= '\U{200A}')
    || c == '\U{2028}' || c == '\U{2029}' || c == '\U{202F}' || c == '\U{205F}'
    || c == '\U{3000}' || c == '\U{FEFF}'
  }

  predicate AllWhitespace(s: string)
  {
    forall i :: 0 <= i < |s| ==> IsWhitespace(s[i])
  }

  /** A string that `trim` leaves alone: empty, or non-whitespace at both ends. */
  predicate IsTrimmed(s: string)
  {
    s == [] || (!IsWhitespace(s[0]) && !IsWhitespace(s[|s| - 1]))
  }

  /** Drops the leading whitespace. */
  function TrimStart(s: string): string
  {
    if s != [] && IsWhitespace(s[0]) then TrimStart(s[1..]) else s
  }

  /** Drops the trailing whitespace. */
  function TrimEnd(s: string): string
  {
    if s != [] && IsWhitespace(s[|s| - 1]) then TrimEnd(s[..|s| - 1]) else s
  }

  /** `TrimStart` returns the longest suffix that does not start with whitespace: only whitespace is dropped. */
  lemma {:induction false} TrimStartSpec(s: string)
    ensures var r := TrimStart(s);
      && |r| <= |s| && r == s[|s| - |r|..]
      && AllWhitespace(s[..|s| - |r|])
      && (r != [] ==> !IsWhitespace(r[0]))
  {
    if s != [] && IsWhitespace(s[0]) {
      TrimStartSpec(s[1..]);
      var r := TrimStart(s[1..]);
      assert s[..|s| - |r|] == [s[0]] + s[1..][..|s| - 1 - |r|];
    }
  }

  /** `TrimEnd` returns the longest prefix that does not end with whitespace: only whitespace is dropped. */
  lemma {:induction false} TrimEndSpec(s: string)
    ensures var r := TrimEnd(s);
      && |r| <= |s| && r == s[..|r|]
      && AllWhitespace(s[|r|..])
      && (r != [] ==> !IsWhitespace(r[|r| - 1]))
  {
    if s != [] && IsWhitespace(s[|s| - 1]) {
      TrimEndSpec(s[..|s| - 1]);
      var r := TrimEnd(s[..|s| - 1]);
      assert s[|r|..] == s[..|s| - 1][|r|..] + [s[|s| - 1]];
    }
  }

  /** `String.prototype.trim`: the result has no whitespace at either end. */
  function Trim(s: string): (r: string)
    ensures |r| <= |s|
    ensures IsTrimmed(r)
  {
    TrimStartSpec(s);
    TrimEndSpec(TrimStart(s));
    TrimEnd(TrimStart(s))
  }

  lemma {:induction false} TrimStartPadded(pre: string, u: string)
    requires AllWhitespace(pre)
    ensures TrimStart(pre + u) == TrimStart(u)
  {
    if pre != [] {
      assert (pre + u)[0] == pre[0] && IsWhitespace(pre[0]);
      assert (pre + u)[1..] == pre[1..] + u;
      TrimStartPadded(pre[1..], u);
    } else {
      assert pre + u == u;
    }
  }

  lemma {:induction false} TrimEndPadded(u: string, post: string)
    requires AllWhitespace(post)
    ensures TrimEnd(u + post) == TrimEnd(u)
  {
    if post != [] {
      var n := |post|;
      assert (u + post)[|u + post| - 1] == post[n - 1] && IsWhitespace(post[n - 1]);
      assert (u + post)[..|u + post| - 1] == u + post[..n - 1];
      TrimEndPadded(u, post[..n - 1]);
    } else {
      assert u + post == u;
    }
  }

  /** Whitespace around a trimmed string is ignored by `trim`. */
  lemma TrimPadded(pre: string, t: string, post: string)
    requires AllWhitespace(pre) && AllWhitespace(post) && IsTrimmed(t)
    ensures Trim(pre + t + post) == t
  {
    assert pre + t + post == pre + (t + post);
    TrimStartPadded(pre, t + post);
    if t == [] {
      assert t + post == post;
      TrimStartSpec(post);
    } else {
      assert TrimStart(t + post) == t + post;
      TrimEndPadded(t, post);
    }
  }

  /** The whitespace `trim` removes from the front of `s`. */
  function Leading(s: string): (w: string)
    ensures AllWhitespace(w)
  {
    TrimStartSpec(s);
    s[..|s| - |TrimStart(s)|]
  }

  /** The whitespace `trim` removes from the back of `s`. */
  function Trailing(s: string): (w: string)
    ensures AllWhitespace(w)
  {
    TrimEndSpec(TrimStart(s));
    TrimStart(s)[|Trim(s)|..]
  }

  /** Conversely, `trim` only removes whitespace from the two ends. */
  lemma TrimSplits(s: string)
    ensures s == Leading(s) + Trim(s) + Trailing(s)
  {
    var l, u, t, r := Leading(s), TrimStart(s), Trim(s), Trailing(s);
    assert s == l + u by { TrimStartSpec(s); }
    assert u == t + r by { TrimEndSpec(u); }
    assert l + u == l + t + r;
  }

  /** `trim(s) == t` exactly when `t` is `s` with whitespace removed from its ends and nothing else. */
  lemma TrimCharacterization(s: string, t: string)
    ensures Trim(s) == t <==>
      IsTrimmed(t) && exists pre, post :: AllWhitespace(pre) && AllWhitespace(post) && s == pre + t + post
  {
    if Trim(s) == t {
      TrimSplits(s);
      var pre, post := Leading(s), Trailing(s);
      assert AllWhitespace(pre) && AllWhitespace(post) && s == pre + t + post;
    }
    if IsTrimmed(t) && exists pre, post :: AllWhitespace(pre) && AllWhitespace(post) && s == pre + t + post {
      var pre, post :| AllWhitespace(pre) && AllWhitespace(post) && s == pre + t + post;
      TrimPadded(pre, t, post);
    }
  }

  /** Trimming twice is trimming once. */
  lemma TrimIdempotent(s: string)
    ensures Trim(Trim(s)) == Trim(s)
  {
  }
}
