/**
  The two pure string tests the relay relies on: Python's `str.strip()` with no
  argument, and the sentence-terminator test applied to each streamed token.
 */
module Text {

  /** Python's `str.isspace()` for one character: the Unicode characters of
      bidirectional class WS, B or S, or of general category Zs. */
  predicate IsSpace(c: char)
  {
    || ('\t' <= c <= '\r')                   // tab, line feed, vertical tab, form feed, carriage return
    || ('\U{1C}' <= c <= '\U{1F}')           // file, group, record and unit separators
    || c == ' '
    || c == '\U{85}'                         // next line
    || c == '\U{A0}'                         // no-break space
    || c == '\U{1680}'
    || ('\U{2000}' <= c <= '\U{200A}')
    || c == '\U{2028}' || c == '\U{2029}'
    || c == '\U{202F}' || c == '\U{205F}' || c == '\U{3000}'
  }

  /** Every character of `s` is whitespace (vacuously so for the empty string). */
  predicate Blank(s: string)
  {
    forall k :: 0 <= k < |s| ==> IsSpace(s[k])
  }

  /** Removes leading whitespace. */
  function TrimStart(s: string): string
    decreases |s|
  {
    if s != [] && IsSpace(s[0]) then TrimStart(s[1..]) else s
  }

  /** Removes trailing whitespace. */
  function TrimEnd(s: string): string
    decreases |s|
  {
    if s != [] && IsSpace(s[|s| - 1]) then TrimEnd(s[..|s| - 1]) else s
  }

  /** Python's `s.strip()` with no argument. */
  function Strip(s: string): string
  {
    TrimEnd(TrimStart(s))
  }

  /** `TrimStart` keeps a suffix of its input, cuts off only whitespace, and
      leaves a string that does not start with whitespace. */
  lemma {:induction false} TrimStartSpec(s: string)
    ensures var r := TrimStart(s);
      && |r| <= |s| && r == s[|s| - |r|..]
      && Blank(s[..|s| - |r|])
      && (r == [] || !IsSpace(r[0]))
    decreases |s|
  {
    if s != [] && IsSpace(s[0]) {
      TrimStartSpec(s[1..]);
      var r := TrimStart(s[1..]);
      assert s[..|s| - |r|] == [s[0]] + s[1..][..|s| - 1 - |r|];
    }
  }

  /** `TrimEnd` keeps a prefix of its input, cuts off only whitespace, and
      leaves a string that does not end with whitespace. */
  lemma {:induction false} TrimEndSpec(s: string)
    ensures var r := TrimEnd(s);
      && |r| <= |s| && r == s[..|r|]
      && Blank(s[|r|..])
      && (r == [] || !IsSpace(r[|r| - 1]))
    decreases |s|
  {
    if s != [] && IsSpace(s[|s| - 1]) {
      var w := s[..|s| - 1];
      TrimEndSpec(w);
      var r := TrimEnd(w);
      assert s[|r|..] == w[|r|..] + [s[|s| - 1]];
    }
  }

  /** `Strip` keeps the slice of its input left once the whitespace at both
      ends is removed: what it cuts off is whitespace, the result is empty
      exactly when the input is blank, and otherwise it starts and ends with a
      non-whitespace character. */
  lemma StripSpec(s: string)
    ensures |TrimStart(s)| <= |s|
    ensures var r := Strip(s); var lead := |s| - |TrimStart(s)|;
      && lead + |r| <= |s|
      && r == s[lead..lead + |r|]
      && Blank(s[..lead]) && Blank(s[lead + |r|..])
      && (r == [] <==> Blank(s))
      && (r != [] ==> !IsSpace(r[0]) && !IsSpace(r[|r| - 1]))
  {
    StripSlice(s);
    StripBlank(s);
  }

  /** Where `Strip` cuts: blank margins around the slice it keeps. */
  lemma StripSlice(s: string)
    ensures |TrimStart(s)| <= |s|
    ensures var r := Strip(s); var lead := |s| - |TrimStart(s)|;
      && lead + |r| <= |s|
      && r == s[lead..lead + |r|]
      && Blank(s[..lead]) && Blank(s[lead + |r|..])
      && (r != [] ==> !IsSpace(r[0]) && !IsSpace(r[|r| - 1]))
  {
    TrimStartSpec(s);
    StripKept(s);
    StripMargin(s);
    StripEnds(TrimStart(s));
  }

  /** The slice `Strip` keeps. */
  lemma StripKept(s: string)
    ensures |TrimStart(s)| <= |s|
    ensures var r := Strip(s); var lead := |s| - |TrimStart(s)|;
      lead + |r| <= |s| && r == s[lead..lead + |r|]
  {
    TrimStartSpec(s);
    TrimKept(s, TrimStart(s));
  }

  /** The blank margin after the slice `Strip` keeps. */
  lemma StripMargin(s: string)
    ensures |TrimStart(s)| <= |s|
    ensures var r := Strip(s); var lead := |s| - |TrimStart(s)|;
      lead + |r| <= |s| && Blank(s[lead + |r|..])
  {
    TrimStartSpec(s);
    TrimKept(s, TrimStart(s));
  }

  /** What `TrimEnd` keeps of a suffix `t` of `s`, as a slice of `s`. */
  lemma TrimKept(s: string, t: string)
    requires |t| <= |s| && t == s[|s| - |t|..]
    ensures var r := TrimEnd(t); var lead := |s| - |t|;
      && lead + |r| <= |s|
      && r == s[lead..lead + |r|]
      && Blank(s[lead + |r|..])
  {
    var r := TrimEnd(t);
    TrimEndSpec(t);
    var lead := |s| - |t|;
    assert s[lead..lead + |r|] == t[..|r|];
    assert s[lead + |r|..] == t[|r|..];
  }

  /** `TrimEnd` of a string starting with non-whitespace starts and ends with
      non-whitespace. */
  lemma StripEnds(t: string)
    requires t == [] || !IsSpace(t[0])
    ensures var r := TrimEnd(t); r != [] ==> !IsSpace(r[0]) && !IsSpace(r[|r| - 1])
  {
    var r := TrimEnd(t);
    TrimEndSpec(t);
    if r != [] {
      assert r[0] == t[0];
    }
  }

  /** `Strip` leaves nothing exactly when its input is blank. */
  lemma StripBlank(s: string)
    ensures Strip(s) == [] <==> Blank(s)
  {
    var t := TrimStart(s);
    var r := TrimEnd(t);
    TrimStartSpec(s);
    TrimEndSpec(t);
    var lead := |s| - |t|;
    if r == [] {
      // A non-empty `t` would start with non-whitespace, which `TrimEnd` keeps.
      assert t == [] by {
        if t != [] { assert false; }
      }
      assert s == s[..lead];
    } else {
      assert r[0] == t[0] == s[lead];
    }
  }

  /** A string with no whitespace at either end is its own strip. */
  lemma StripKeeps(s: string)
    requires s != [] && !IsSpace(s[0]) && !IsSpace(s[|s| - 1])
    ensures Strip(s) == s
  {
  }

  /** Stripping twice is the same as stripping once. */
  lemma {:induction false} StripIdempotent(s: string)
    ensures Strip(Strip(s)) == Strip(s)
  {
    var r := Strip(s);
    StripSpec(s);
    if r != [] {
      StripKeeps(r);
    }
  }

  /** Surrounding whitespace is invisible to `Strip`. */
  lemma {:induction false} StripIgnoresPadding(pre: string, s: string, post: string)
    requires Blank(pre) && Blank(post)
    ensures Strip(pre + s + post) == Strip(s)
  {
    assert pre + s + post == pre + (s + post);
    TrimStartPadded(pre, s + post);
    TrimStartPaddedEnd(s, post);
    if Strip(s) != [] {
      TrimEndPadded(TrimStart(s), post);
    } else {
      StripSpec(s);
      StripSpec(s + post);
      assert Blank(s + post) by {
        forall k | 0 <= k < |s + post| ensures IsSpace((s + post)[k]) {
          if k >= |s| { assert (s + post)[k] == post[k - |s|]; }
        }
      }
    }
  }

  /** Leading whitespace is removed by `TrimStart`. */
  lemma {:induction false} TrimStartPadded(pre: string, s: string)
    requires Blank(pre)
    ensures TrimStart(pre + s) == TrimStart(s)
    decreases |pre|
  {
    if pre != [] {
      assert (pre + s)[0] == pre[0];
      assert (pre + s)[1..] == pre[1..] + s;
      assert Blank(pre[1..]) by {
        forall k | 0 <= k < |pre| - 1 ensures IsSpace(pre[1..][k]) { assert pre[1..][k] == pre[k + 1]; }
      }
      TrimStartPadded(pre[1..], s);
    } else {
      assert pre + s == s;
    }
  }

  /** Trailing whitespace is removed by `TrimEnd`. */
  lemma {:induction false} TrimEndPadded(s: string, post: string)
    requires Blank(post)
    ensures TrimEnd(s + post) == TrimEnd(s)
    decreases |post|
  {
    if post != [] {
      var w := post[..|post| - 1];
      assert (s + post)[|s + post| - 1] == post[|post| - 1];
      assert (s + post)[..|s + post| - 1] == s + w;
      assert Blank(w) by {
        forall k | 0 <= k < |w| ensures IsSpace(w[k]) { assert w[k] == post[k]; }
      }
      TrimEndPadded(s, w);
    } else {
      assert s + post == s;
    }
  }

  /** Trailing whitespace after a non-blank string survives `TrimStart`. */
  lemma {:induction false} TrimStartPaddedEnd(s: string, post: string)
    ensures Strip(s) != [] ==> TrimStart(s + post) == TrimStart(s) + post
    decreases |s|
  {
    if s != [] && IsSpace(s[0]) {
      assert (s + post)[0] == s[0];
      assert (s + post)[1..] == s[1..] + post;
      assert Strip(s) != [] ==> Strip(s[1..]) != [] by {
        StripSpec(s);
        StripSpec(s[1..]);
        if Blank(s[1..]) {
          forall k | 0 <= k < |s| ensures IsSpace(s[k]) { if k > 0 { assert s[k] == s[1..][k - 1]; } }
        }
      }
      TrimStartPaddedEnd(s[1..], post);
    } else if s != [] {
      assert (s + post)[0] == s[0];
    }
  }

  /** A sentence terminator: period, exclamation mark, question mark or newline. */
  predicate IsTerminator(c: char)
  {
    c == '.' || c == '!' || c == '?' || c == '\n'
  }

  /** The relay's test on one streamed token: does it contain any of the four
      terminators? */
  predicate HasTerminator(token: string)
  {
    '.' in token || '!' in token || '?' in token || '\n' in token
  }

  /** The membership test is the same as finding a terminator at some index;
      and a terminator in the token is still there after text is put before it. */
  lemma HasTerminatorAt(prefix: string, token: string)
    ensures HasTerminator(token) <==> exists k :: 0 <= k < |token| && IsTerminator(token[k])
    ensures HasTerminator(token) ==> HasTerminator(prefix + token)
  {
    if HasTerminator(token) {
      var k :| 0 <= k < |token| && IsTerminator(token[k]);
      assert (prefix + token)[|prefix| + k] == token[k];
    }
  }
}
