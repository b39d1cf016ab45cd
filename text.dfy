// String operations the pipeline relies on, with the semantics of the
// language that performs them: Python's `str.rstrip`, `in`, `str.replace(pat,
// rep, 1)` and `str()` on integers, and the warehouse's `REPLACE` and `LIKE`.

module Text {
  import opened Values

  predicate StartsWith(s: string, p: string)
  {
    |p| <= |s| && s[..|p|] == p
  }

  predicate EndsWith(s: string, p: string)
  {
    |p| <= |s| && s[|s| - |p|..] == p
  }

  /** `p` occurs in `s` starting at position `i`. */
  predicate OccursAt(s: string, p: string, i: int)
  {
    0 <= i && i + |p| <= |s| && s[i..i + |p|] == p
  }

  /** Python's `p in s` (true for the empty pattern). */
  predicate Contains(s: string, p: string)
  {
    exists i :: 0 <= i <= |s| && OccursAt(s, p, i)
  }

  lemma OccursAtTail(s: string, p: string, j: int)
    requires s != [] && j >= 0
    ensures OccursAt(s, p, j + 1) <==> OccursAt(s[1..], p, j)
  {
    if 0 <= j && j + 1 + |p| <= |s| {
      assert s[j + 1..j + 1 + |p|] == s[1..][j..j + |p|];
    }
  }

  /** The leftmost occurrence of `p` in `s`, as Python's `str.find` computes it. */
  function Find(s: string, p: string): (r: Option<nat>)
    ensures r.Some? ==> OccursAt(s, p, r.value)
    ensures r.Some? ==> forall j :: 0 <= j < r.value ==> !OccursAt(s, p, j)
    ensures r.None? <==> !Contains(s, p)
    decreases |s|
  {
    if StartsWith(s, p) then Some(0)
    else if s == [] then None
    else
      var rest := Find(s[1..], p);
      assert forall j :: 0 <= j ==> (OccursAt(s, p, j + 1) <==> OccursAt(s[1..], p, j)) by {
        forall j | 0 <= j ensures OccursAt(s, p, j + 1) <==> OccursAt(s[1..], p, j) {
          OccursAtTail(s, p, j);
        }
      }
      assert !OccursAt(s, p, 0);
      if rest.Some? then
        assert forall j :: 1 <= j < rest.value + 1 ==> !OccursAt(s, p, j) by {
          forall j | 1 <= j < rest.value + 1 ensures !OccursAt(s, p, j) {
            assert !OccursAt(s[1..], p, j - 1);
          }
        }
        Some(rest.value + 1)
      else
        assert forall i :: 0 <= i <= |s| ==> !OccursAt(s, p, i) by {
          forall i | 0 <= i <= |s| ensures !OccursAt(s, p, i) {
            if i > 0 { assert !OccursAt(s[1..], p, i - 1); }
          }
        }
        None
  }

  /** Python's `s.rstrip(c)` for a single character: every trailing `c` removed. */
  function RStrip(s: string, c: char): (r: string)
    ensures |r| <= |s| && r == s[..|r|]
    ensures r == [] || r[|r| - 1] != c
    ensures forall i :: |r| <= i < |s| ==> s[i] == c
  {
    if s != [] && s[|s| - 1] == c then RStrip(s[..|s| - 1], c) else s
  }

  /** Python's `s.replace(pat, rep, 1)`: the leftmost occurrence replaced, if any. */
  function ReplaceFirst(s: string, pat: string, rep: string): (r: string)
  {
    match Find(s, pat)
    case Some(i) => s[..i] + rep + s[i + |pat|..]
    case None => s
  }

  /** The warehouse's `REPLACE(s, pat, rep)`: every non-overlapping occurrence,
      scanning left to right; an empty `pat` leaves `s` as it is. */
  function ReplaceAll(s: string, pat: string, rep: string): string
    decreases |s|
  {
    if |pat| == 0 || s == [] then s
    else if StartsWith(s, pat) then rep + ReplaceAll(s[|pat|..], pat, rep)
    else [s[0]] + ReplaceAll(s[1..], pat, rep)
  }

  lemma {:induction false} ReplaceAllAbsent(s: string, pat: string, rep: string)
    requires !Contains(s, pat)
    ensures ReplaceAll(s, pat, rep) == s
    decreases |s|
  {
    if |pat| != 0 && s != [] {
      assert !OccursAt(s, pat, 0);
      forall j | 0 <= j <= |s[1..]| ensures !OccursAt(s[1..], pat, j) {
        OccursAtTail(s, pat, j);
      }
      ReplaceAllAbsent(s[1..], pat, rep);
    }
  }

  /** Removing a leading prefix with `REPLACE(name, prefix, '')` yields the rest of
      the name, provided the prefix does not occur again in that rest. */
  lemma {:induction false} ReplaceAllStripsPrefix(prefix: string, rest: string)
    requires |prefix| > 0 && !Contains(rest, prefix)
    ensures ReplaceAll(prefix + rest, prefix, "") == rest
  {
    var s := prefix + rest;
    assert StartsWith(s, prefix);
    assert s[|prefix|..] == rest;
    ReplaceAllAbsent(rest, prefix, "");
  }

  predicate IsDigit(c: char)
  {
    '0' <= c <= '9'
  }

  predicate AllDigits(s: string)
  {
    forall i :: 0 <= i < |s| ==> IsDigit(s[i])
  }

  function DigitChar(d: nat): (c: char)
    requires d < 10
    ensures IsDigit(c)
  {
    "0123456789"[d]
  }

  /** Python's `str(n)` for a non-negative integer. */
  function NatToString(n: nat): (r: string)
    ensures |r| > 0 && AllDigits(r)
  {
    if n < 10 then [DigitChar(n)] else NatToString(n / 10) + [DigitChar(n % 10)]
  }

  /** The value of a decimal digit. */
  function DigitValue(c: char): (d: nat)
    requires IsDigit(c)
    ensures d < 10 && DigitChar(d) == c
  {
    c as int - '0' as int
  }

  /** The number a string of decimal digits denotes, most significant first. */
  function DigitsValue(s: string): nat
    requires AllDigits(s)
  {
    if s == [] then 0 else 10 * DigitsValue(s[..|s| - 1]) + DigitValue(s[|s| - 1])
  }

  /** `str(n)` denotes `n` and has no leading zero, so distinct numbers print
      differently. */
  lemma {:induction false} NatToStringValue(n: nat)
    ensures DigitsValue(NatToString(n)) == n
    ensures n > 0 ==> NatToString(n)[0] != '0'
    ensures n == 0 ==> NatToString(n) == "0"
  {
    if n >= 10 {
      var r := NatToString(n);
      NatToStringValue(n / 10);
      assert r[..|r| - 1] == NatToString(n / 10);
      assert DigitValue(DigitChar(n % 10)) == n % 10;
    } else {
      assert DigitValue(DigitChar(n)) == n;
    }
  }

  lemma NatToStringInjective(m: nat, n: nat)
    requires NatToString(m) == NatToString(n)
    ensures m == n
  {
    NatToStringValue(m);
    NatToStringValue(n);
  }

  /** Python's `str(i)` for any integer. */
  function IntToString(i: int): (r: string)
    ensures i >= 0 ==> r == NatToString(i)
    ensures i < 0 ==> |r| > 1 && r[0] == '-' && AllDigits(r[1..])
  {
    if i < 0 then "-" + NatToString(-i) else NatToString(i)
  }

  /** The parts separated by `", "`, as Python prints the elements of a list. */
  function JoinComma(parts: seq<string>): string
  {
    if parts == [] then ""
    else if |parts| == 1 then parts[0]
    else JoinComma(parts[..|parts| - 1]) + ", " + parts[|parts| - 1]
  }

  /** Python's `str` of the value `json.loads` makes of `j` (`quoted` for `repr`,
      which is how a container prints its elements). Quotes and backslashes inside
      strings are not escaped. */
  function PyStr(j: Json, quoted: bool): string
  {
    match j
    case JNull => "None"
    case JBool(b) => if b then "True" else "False"
    case JNum(n) => IntToString(n)
    case JStr(s) => if quoted then "'" + s + "'" else s
    case JArr(items) =>
      "[" + JoinComma(seq(|items|, i requires 0 <= i < |items| => PyStr(items[i], true))) + "]"
    case JObj(fields) =>
      "{" + JoinComma(seq(|fields|, i requires 0 <= i < |fields| =>
        assert fields[i] in fields;
        "'" + fields[i].name + "': " + PyStr(fields[i].value, true))) + "}"
  }

  /** The warehouse's `s LIKE p`: `%` matches any run of characters, `_` any one
      character, every other character itself (case-sensitive, no escape). */
  predicate Like(s: string, p: string)
    decreases |s| + |p|
  {
    if p == [] then s == []
    else if p[0] == '%' then Like(s, p[1..]) || (s != [] && Like(s[1..], p))
    else s != [] && (p[0] == '_' || p[0] == s[0]) && Like(s[1..], p[1..])
  }

  /** A pattern without wildcards. */
  predicate Literal(w: string)
  {
    forall i :: 0 <= i < |w| ==> w[i] != '%' && w[i] != '_'
  }

  lemma {:induction false} LikeAnything(s: string)
    ensures Like(s, "%")
    decreases |s|
  {
    if s != [] {
      LikeAnything(s[1..]);
    }
  }

  lemma LikeOneOrMore(s: string)
    ensures Like(s, "_%") <==> |s| >= 1
  {
    if s != [] {
      LikeAnything(s[1..]);
    }
  }

  lemma {:induction false} LikeLiteralPrefix(s: string, w: string, q: string)
    requires Literal(w)
    ensures Like(s, w + q) <==> StartsWith(s, w) && Like(s[|w|..], q)
    decreases |w|
  {
    if w != [] {
      assert (w + q)[0] == w[0] && (w + q)[1..] == w[1..] + q;
      if s != [] {
        LikeLiteralPrefix(s[1..], w[1..], q);
        if |s| >= |w| {
          assert s[1..][|w| - 1..] == s[|w|..];
          assert s[..|w|] == [s[0]] + s[1..][..|w| - 1];
        }
      }
    } else {
      assert w + q == q;
    }
  }

  lemma {:induction false} LikeLeadingPercent(s: string, q: string)
    ensures Like(s, "%" + q) <==> exists i :: 0 <= i <= |s| && Like(s[i..], q)
    decreases |s|
  {
    var p := "%" + q;
    assert p[1..] == q;
    if s == [] {
      assert s[0..] == s;
    } else {
      LikeLeadingPercent(s[1..], q);
      assert s[0..] == s;
      assert forall i :: 1 <= i <= |s| ==> s[1..][i - 1..] == s[i..];
      if Like(s, p) {
        if !Like(s, q) {
          assert Like(s[1..], p);
          var i :| 0 <= i <= |s[1..]| && Like(s[1..][i..], q);
          assert s[1..][i..] == s[i + 1..];
        }
      } else {
        forall i | 0 <= i <= |s| ensures !Like(s[i..], q) {
          if i > 0 { assert s[1..][i - 1..] == s[i..]; }
        }
      }
    }
  }

  /** `s LIKE '%' || w || '_%'` holds exactly when the literal `w` occurs in `s` with
      at least one character after it: the `_` is a wildcard, not an underscore. */
  lemma LikeContainsFollowed(s: string, w: string)
    requires Literal(w)
    ensures Like(s, "%" + w + "_%") <==> exists i :: OccursAt(s, w, i) && i + |w| < |s|
  {
    assert "%" + w + "_%" == "%" + (w + "_%");
    LikeLeadingPercent(s, w + "_%");
    forall i | 0 <= i <= |s|
      ensures Like(s[i..], w + "_%") <==> OccursAt(s, w, i) && i + |w| < |s|
    {
      LikeFollowedAt(s, w, i);
    }
  }

  lemma LikeFollowedAt(s: string, w: string, i: nat)
    requires Literal(w) && i <= |s|
    ensures Like(s[i..], w + "_%") <==> OccursAt(s, w, i) && i + |w| < |s|
  {
    var t := s[i..];
    LikeLiteralPrefix(t, w, "_%");
    if StartsWith(t, w) {
      LikeOneOrMore(t[|w|..]);
      assert t[..|w|] == s[i..i + |w|];
    } else if i + |w| <= |s| {
      assert t[..|w|] == s[i..i + |w|];
    }
  }
}
