/**
 * The string operations the repositories rely on: Python's str.strip() and
 * str.upper(), str() of a non-negative int, and the case-insensitive LIKE
 * match that SQLAlchemy's ilike becomes on SQLite (lower(x) LIKE lower(p),
 * where '%' matches any run of characters and '_' any single character).
 */
module Text {
  import opened Schema

  /** Python's str.isspace() on a single character. */
  predicate IsSpace(c: char)
  {
    || c == ' '
    || '\t' <= c <= '\r'
    || '\U{1C}' <= c <= '\U{1F}'
    || c == '\U{85}' || c == '\U{A0}' || c == '\U{1680}'
    || '\U{2000}' <= c <= '\U{200A}'
    || c == '\U{2028}' || c == '\U{2029}' || c == '\U{202F}' || c == '\U{205F}' || c == '\U{3000}'
  }

  predicate AllSpace(s: string)
  {
    forall i :: 0 <= i < |s| ==> IsSpace(s[i])
  }

  /** Neither starts nor ends with whitespace. */
  predicate IsStripped(s: string)
  {
    s == [] || (!IsSpace(s[0]) && !IsSpace(s[|s| - 1]))
  }

  /** Drops the leading whitespace. */
  function TrimStart(s: string): (r: string)
    ensures |r| <= |s|
    ensures r == [] || !IsSpace(r[0])
  {
    if s != [] && IsSpace(s[0]) then TrimStart(s[1..]) else s
  }

  /** Drops the trailing whitespace. */
  function TrimEnd(s: string): (r: string)
    ensures |r| <= |s|
    ensures r == [] || !IsSpace(r[|r| - 1])
  {
    if s != [] && IsSpace(s[|s| - 1]) then TrimEnd(s[..|s| - 1]) else s
  }

  /** TrimStart keeps a suffix of its input and what it drops is all whitespace. */
  lemma {:induction false} TrimStartSuffix(s: string)
    ensures TrimStart(s) == s[|s| - |TrimStart(s)|..]
    ensures AllSpace(s[..|s| - |TrimStart(s)|])
    decreases |s|
  {
    if s != [] && IsSpace(s[0]) {
      var k := |s| - |TrimStart(s)|;
      TrimStartSuffix(s[1..]);
      assert s[1..][k - 1..] == s[k..];
      forall i | 0 <= i < k ensures IsSpace(s[..k][i]) {
        if i > 0 {
          assert s[..k][i] == s[1..][..k - 1][i - 1];
        }
      }
    }
  }

  /** TrimEnd keeps a prefix of its input and what it drops is all whitespace. */
  lemma {:induction false} TrimEndPrefix(s: string)
    ensures TrimEnd(s) == s[..|TrimEnd(s)|]
    ensures AllSpace(s[|TrimEnd(s)|..])
    decreases |s|
  {
    if s != [] && IsSpace(s[|s| - 1]) {
      var k := |TrimEnd(s)|;
      var pre := s[..|s| - 1];
      TrimEndPrefix(pre);
      assert pre[..k] == s[..k];
      forall i | 0 <= i < |s| - k ensures IsSpace(s[k..][i]) {
        if i < |s| - 1 - k {
          assert s[k..][i] == pre[k..][i];
        }
      }
    }
  }

  /** Python's s.strip(): drops leading and trailing whitespace. */
  function Strip(s: string): (r: string)
    ensures IsStripped(r)
  {
    var t := TrimStart(s);
    var r := TrimEnd(t);
    TrimEndPrefix(t);
    assert r == [] || !IsSpace(r[0]) by {
      if r != [] { assert r[0] == t[0]; }
    }
    r
  }

  /** Strip leaves nothing exactly when the text is all whitespace. */
  lemma StripBlank(s: string)
    ensures Strip(s) == [] <==> AllSpace(s)
  {
    var t := TrimStart(s);
    TrimStartSuffix(s);
    TrimEndPrefix(t);
    if Strip(s) == [] {
      assert t == [];
      assert s[..|s| - |t|] == s;
    }
  }

  lemma {:induction false} StripOfStripped(s: string)
    requires IsStripped(s)
    ensures Strip(s) == s
  {
    assert TrimStart(s) == s;
    assert TrimEnd(s) == s;
  }

  /** Stripping is idempotent: a value stored stripped is stored unchanged by a second strip. */
  lemma StripIdempotent(s: string)
    ensures Strip(Strip(s)) == Strip(s)
  {
    StripOfStripped(Strip(s));
  }

  lemma {:induction false} PadStart(pad: string, s: string)
    requires AllSpace(pad)
    requires s != [] && !IsSpace(s[0])
    ensures TrimStart(pad + s) == s
    decreases |pad|
  {
    if pad != [] {
      assert (pad + s)[1..] == pad[1..] + s;
      PadStart(pad[1..], s);
    } else {
      assert pad + s == s;
    }
  }

  lemma {:induction false} PadEnd(s: string, pad: string)
    requires AllSpace(pad)
    requires s != [] && !IsSpace(s[|s| - 1])
    ensures TrimEnd(s + pad) == s
    decreases |pad|
  {
    if pad != [] {
      assert (s + pad)[..|s + pad| - 1] == s + pad[..|pad| - 1];
      PadEnd(s, pad[..|pad| - 1]);
    } else {
      assert s + pad == s;
    }
  }

  /** Whitespace added on both sides of a stripped, non-empty text is exactly what strip removes. */
  lemma StripPadded(pad: string, s: string)
    requires AllSpace(pad)
    requires s != [] && IsStripped(s)
    ensures Strip(pad + s + pad) == s
  {
    assert pad + s + pad == pad + (s + pad);
    PadStart(pad, s + pad);
    PadEnd(s, pad);
  }

  /** `(x or "").strip() or None`: a blank text becomes None, anything else is kept stripped. */
  function OrNone(s: string): (r: Option<string>)
    ensures r.None? <==> AllSpace(s)
    ensures r.Some? ==> r.value != [] && IsStripped(r.value) && r.value == Strip(s)
  {
    StripBlank(s);
    var t := Strip(s);
    if t == [] then None else Some(t)
  }

  function UpperChar(c: char): char
  {
    if 'a' <= c <= 'z' then (c as int - 32) as char else c
  }

  function LowerChar(c: char): char
  {
    if 'A' <= c <= 'Z' then (c as int + 32) as char else c
  }

  /** str.upper() on the ASCII letters. */
  function Upper(s: string): (r: string)
    ensures |r| == |s| && forall i :: 0 <= i < |s| ==> r[i] == UpperChar(s[i])
  {
    seq(|s|, i requires 0 <= i < |s| => UpperChar(s[i]))
  }

  /** SQLite's lower(), which folds the ASCII letters only. */
  function Lower(s: string): (r: string)
    ensures |r| == |s| && forall i :: 0 <= i < |s| ==> r[i] == LowerChar(s[i])
  {
    seq(|s|, i requires 0 <= i < |s| => LowerChar(s[i]))
  }

  /** SQL LIKE without an ESCAPE clause: '%' matches any run, '_' any single character. */
  function Like(p: string, s: string): bool
    decreases |p| + |s|
  {
    if p == [] then s == []
    else if p[0] == '%' then Like(p[1..], s) || (s != [] && Like(p, s[1..]))
    else s != [] && (p[0] == '_' || p[0] == s[0]) && Like(p[1..], s[1..])
  }

  /** `text ILIKE '%term%'` as SQLAlchemy renders it for SQLite. */
  function ILike(text: string, term: string): bool
  {
    Like(Lower("%" + term + "%"), Lower(text))
  }

  predicate NoWildcards(t: string)
  {
    forall i :: 0 <= i < |t| ==> t[i] != '%' && t[i] != '_'
  }

  predicate OccursAt(s: string, t: string, k: int)
  {
    0 <= k <= |s| - |t| && s[k..k + |t|] == t
  }

  predicate Contains(s: string, t: string)
  {
    exists k :: 0 <= k <= |s| - |t| && OccursAt(s, t, k)
  }

  lemma {:induction false} LikeTrailingPercent(s: string)
    ensures Like("%", s)
    decreases |s|
  {
    if s != [] {
      LikeTrailingPercent(s[1..]);
    }
  }

  /** A pattern that starts with a literal (wildcard-free) text matches iff that text is a prefix. */
  lemma {:induction false} LikeLiteralPrefix(t: string, rest: string, s: string)
    requires NoWildcards(t)
    ensures Like(t + rest, s) <==> |t| <= |s| && s[..|t|] == t && Like(rest, s[|t|..])
    decreases |t|
  {
    if t != [] {
      assert (t + rest)[0] == t[0];
      assert (t + rest)[1..] == t[1..] + rest;
      if s != [] {
        LikeLiteralPrefix(t[1..], rest, s[1..]);
        if |t| <= |s| {
          assert s[1..][|t| - 1..] == s[|t|..];
          assert s[..|t|] == [s[0]] + s[1..][..|t| - 1];
          assert t == [t[0]] + t[1..];
        }
      }
    } else {
      assert t + rest == rest;
    }
  }

  /** A leading '%' lets the rest of the pattern match any suffix. */
  lemma {:induction false} LikeLeadingPercent(q: string, s: string)
    ensures Like("%" + q, s) <==> exists k :: 0 <= k <= |s| && Like(q, s[k..])
    decreases |s|
  {
    assert ("%" + q)[0] == '%';
    assert ("%" + q)[1..] == q;
    assert s[0..] == s;
    if s != [] {
      LikeLeadingPercent(q, s[1..]);
      if exists k :: 0 <= k <= |s| && Like(q, s[k..]) {
        var k :| 0 <= k <= |s| && Like(q, s[k..]);
        if k > 0 {
          assert s[1..][k - 1..] == s[k..];
        }
      }
      if exists k :: 0 <= k <= |s| - 1 && Like(q, s[1..][k..]) {
        var k :| 0 <= k <= |s| - 1 && Like(q, s[1..][k..]);
        assert s[1..][k..] == s[k + 1..];
      }
    }
  }

  /** For a search text without wildcards, LIKE '%t%' is substring search. */
  lemma {:induction false} LikeIsContains(t: string, s: string)
    requires NoWildcards(t)
    ensures Like("%" + t + "%", s) <==> Contains(s, t)
  {
    assert "%" + t + "%" == "%" + (t + "%");
    LikeLeadingPercent(t + "%", s);
    if Like("%" + t + "%", s) {
      var k :| 0 <= k <= |s| && Like(t + "%", s[k..]);
      LikeLiteralPrefix(t, "%", s[k..]);
      assert s[k..][..|t|] == s[k..k + |t|];
      assert OccursAt(s, t, k);
    }
    if Contains(s, t) {
      var k :| 0 <= k <= |s| - |t| && OccursAt(s, t, k);
      LikeLiteralPrefix(t, "%", s[k..]);
      LikeTrailingPercent(s[k..][|t|..]);
      assert s[k..][..|t|] == s[k..k + |t|];
    }
  }

  /**
   * The search the listings run: for a search text without '%' or '_', ilike
   * is a substring test after folding both sides to lower case.
   */
  lemma ILikeIsCaseInsensitiveContains(text: string, term: string)
    requires NoWildcards(term)
    ensures ILike(text, term) <==> Contains(Lower(text), Lower(term))
  {
    assert Lower("%" + term + "%") == "%" + Lower(term) + "%";
    LikeIsContains(Lower(term), Lower(text));
  }

  function DigitChar(d: nat): char
    requires d < 10
  {
    ['0', '1', '2', '3', '4', '5', '6', '7', '8', '9'][d]
  }

  /** Python's str(n) for n >= 0. */
  function NatToString(n: nat): (r: string)
    ensures 1 <= |r| && '0' <= r[|r| - 1] <= '9'
  {
    if n < 10 then [DigitChar(n)] else NatToString(n / 10) + [DigitChar(n % 10)]
  }

  /** str(n) is made of decimal digits only. */
  lemma {:induction false} NatToStringDigits(n: nat)
    ensures forall i :: 0 <= i < |NatToString(n)| ==> '0' <= NatToString(n)[i] <= '9'
  {
    if n >= 10 {
      NatToStringDigits(n / 10);
    }
  }

  function DigitsValue(s: string): int
  {
    if s == [] then 0 else 10 * DigitsValue(s[..|s| - 1]) + (s[|s| - 1] as int - '0' as int)
  }

  /** Reading the decimal text back gives the number: distinct ids give distinct references. */
  lemma {:induction false} NatToStringRoundTrip(n: nat)
    ensures DigitsValue(NatToString(n)) == n
  {
    if n >= 10 {
      NatToStringRoundTrip(n / 10);
      var s := NatToString(n);
      assert s[..|s| - 1] == NatToString(n / 10);
    }
  }
}
