/** The string operations of JavaScript that the source relies on:
    `indexOf`, `replace` with a string pattern, `split` on one character,
    `join`, `startsWith` and `parseInt(s, 10)`. */
module Text {
  import opened Js
  import Seqs

  predicate StartsWith(s: string, prefix: string)
  {
    |prefix| <= |s| && s[..|prefix|] == prefix
  }

  predicate OccursAt(s: string, pat: string, i: int)
  {
    0 <= i && i + |pat| <= |s| && s[i..i + |pat|] == pat
  }

  /** The first index at or after `k` where `pat` occurs in `s`, or -1. */
  function IndexFrom(s: string, pat: string, k: nat): (r: int)
    requires k <= |s| + 1
    decreases |s| + 1 - k
  {
    if k + |pat| > |s| then -1
    else if s[k..k + |pat|] == pat then k
    else IndexFrom(s, pat, k + 1)
  }

  /** The search from `k` finds an occurrence at or after `k` and none
      between `k` and it, or finds none at all and returns -1. */
  lemma {:induction false} IndexFromFinds(s: string, pat: string, k: nat)
    requires k <= |s| + 1
    ensures IndexFrom(s, pat, k) == -1 || (k <= IndexFrom(s, pat, k) && OccursAt(s, pat, IndexFrom(s, pat, k)))
    ensures forall j :: k <= j && (IndexFrom(s, pat, k) == -1 || j < IndexFrom(s, pat, k)) ==> !OccursAt(s, pat, j)
    decreases |s| + 1 - k
  {
    if k + |pat| <= |s| && s[k..k + |pat|] != pat {
      IndexFromFinds(s, pat, k + 1);
    }
  }

  /** `s.indexOf(pat)`: the least index of an occurrence of `pat`, or -1 when
      there is none. */
  function IndexOf(s: string, pat: string): int
  {
    IndexFrom(s, pat, 0)
  }

  lemma IndexOfFinds(s: string, pat: string)
    ensures IndexOf(s, pat) == -1 || OccursAt(s, pat, IndexOf(s, pat))
    ensures forall j :: 0 <= j && (IndexOf(s, pat) == -1 || j < IndexOf(s, pat)) ==> !OccursAt(s, pat, j)
  {
    IndexFromFinds(s, pat, 0);
  }

  /** The first occurrence is the one not preceded by the pattern's first
      character. */
  lemma IndexOfAt(s: string, pat: string, i: nat)
    requires pat != [] && OccursAt(s, pat, i)
    requires forall j :: 0 <= j < i ==> s[j] != pat[0]
    ensures IndexOf(s, pat) == i
  {
    IndexOfFinds(s, pat);
    forall r | OccursAt(s, pat, r) ensures s[r] == pat[0] {
      assert s[r..r + |pat|][0] == s[r];
    }
  }

  /** A pattern whose first character does not occur from `k` on is not found
      from `k` on. */
  lemma {:induction false} IndexFromAbsent(s: string, pat: string, k: nat)
    requires pat != [] && k <= |s| + 1
    requires forall j :: k <= j < |s| ==> s[j] != pat[0]
    ensures IndexFrom(s, pat, k) == -1
    decreases |s| + 1 - k
  {
    if k + |pat| <= |s| {
      assert s[k..k + |pat|][0] == s[k];
      IndexFromAbsent(s, pat, k + 1);
    }
  }

  /** `s.replace(pat, rep)` with a string pattern: only the first occurrence of
      `pat` is replaced; without one, `s` is returned unchanged. */
  function ReplaceFirst(s: string, pat: string, rep: string): string
  {
    IndexOfFinds(s, pat);
    var i := IndexOf(s, pat);
    if i < 0 then s else s[..i] + rep + s[i + |pat|..]
  }

  /** Without an occurrence the string is unchanged; otherwise the first
      occurrence gives way to `rep` and the text around it is kept. */
  lemma ReplaceFirstSplices(s: string, pat: string, rep: string)
    ensures IndexOf(s, pat) == -1 ==> ReplaceFirst(s, pat, rep) == s
    ensures IndexOf(s, pat) >= 0 ==>
      (IndexOfFinds(s, pat);
       var i := IndexOf(s, pat);
       var r := ReplaceFirst(s, pat, rep);
       |r| == |s| - |pat| + |rep| && r[..i] == s[..i] && r[i..i + |rep|] == rep && r[i + |rep|..] == s[i + |pat|..])
  {
    IndexOfFinds(s, pat);
  }

  /** An occurrence of `pat` that lies wholly after the first one survives the
      replacement, shifted by the difference in length. */
  lemma ReplaceFirstKeepsLaterOccurrences(s: string, pat: string, rep: string, j: int)
    requires IndexOf(s, pat) >= 0 && IndexOf(s, pat) + |pat| <= j && OccursAt(s, pat, j)
    ensures OccursAt(ReplaceFirst(s, pat, rep), pat, j - |pat| + |rep|)
  {
    var i := IndexOf(s, pat);
    var r := ReplaceFirst(s, pat, rep);
    ReplaceFirstSplices(s, pat, rep);
    var j' := j - |pat| + |rep|;
    assert r[i + |rep|..] == s[i + |pat|..];
    assert r[j'..j' + |pat|] == r[i + |rep|..][j - i - |pat|..j - i] == s[i + |pat|..][j - i - |pat|..j - i];
  }

  /** `s.split(sep)` for a one-character separator. */
  function Split(s: string, sep: char): (parts: seq<string>)
    ensures |parts| >= 1
    ensures forall k :: 0 <= k < |parts| ==> sep !in parts[k]
  {
    if s == [] then [""]
    else
      var rest := Split(s[1..], sep);
      if s[0] == sep then [""] + rest
      else [[s[0]] + rest[0]] + rest[1..]
  }

  /** `parts.join(sep)` for a one-character separator. */
  function Join(parts: seq<string>, sep: char): string
    requires |parts| >= 1
  {
    if |parts| == 1 then parts[0] else parts[0] + [sep] + Join(parts[1..], sep)
  }

  /** Joining the pieces of a split gives back the string. */
  lemma {:induction false} JoinSplit(s: string, sep: char)
    ensures Join(Split(s, sep), sep) == s
  {
    if s != [] {
      var rest := Split(s[1..], sep);
      JoinSplit(s[1..], sep);
      if s[0] != sep {
        if |rest| > 1 {
          assert Join(Split(s, sep), sep) == [s[0]] + rest[0] + [sep] + Join(rest[1..], sep);
        }
      } else {
        assert Join(Split(s, sep), sep) == "" + [sep] + Join(rest, sep);
      }
    }
  }

  lemma {:induction false} SplitWithoutSeparator(a: string, sep: char)
    requires sep !in a
    ensures Split(a, sep) == [a]
  {
    if a != [] {
      SplitWithoutSeparator(a[1..], sep);
      assert [a[0]] + a[1..] == a;
    }
  }

  lemma {:induction false} SplitAfterPart(a: string, t: string, sep: char)
    requires sep !in a
    ensures Split(a + [sep] + t, sep) == [a] + Split(t, sep)
  {
    if a == [] {
      assert a + [sep] + t == [sep] + t;
      assert ([sep] + t)[1..] == t;
    } else {
      assert (a + [sep] + t)[1..] == a[1..] + [sep] + t;
      SplitAfterPart(a[1..], t, sep);
      assert [a[0]] + a[1..] == a;
    }
  }

  /** Splitting a string that starts with `c`: a separator opens a new
      piece, any other character joins the first piece. */
  lemma SplitCons(c: char, s: string, sep: char)
    ensures Split([c] + s, sep)
      == if c == sep then [""] + Split(s, sep) else [[c] + Split(s, sep)[0]] + Split(s, sep)[1..]
  {
    assert ([c] + s)[1..] == s;
  }

  /** Splitting at a separator between two strings splits each of them. */
  lemma {:induction false} SplitAround(a: string, t: string, sep: char)
    ensures Split(a + [sep] + t, sep) == Split(a, sep) + Split(t, sep)
  {
    if a == [] {
      assert a + [sep] + t == [sep] + t;
      SplitCons(sep, t, sep);
    } else {
      var rest := a[1..] + [sep] + t;
      assert a + [sep] + t == [a[0]] + rest;
      assert a == [a[0]] + a[1..];
      SplitAround(a[1..], t, sep);
      SplitCons(a[0], rest, sep);
      SplitCons(a[0], a[1..], sep);
      var l, r := Split(a[1..], sep), Split(t, sep);
      if a[0] != sep {
        assert (l + r)[1..] == l[1..] + r;
        Seqs.Extend(Split(a, sep) + r, Split(a, sep), [[a[0]] + l[0]], l[1..], r, l[1..] + r);
      } else {
        Seqs.Extend(Split(a, sep) + r, Split(a, sep), [""], l, r, l + r);
      }
    }
  }

  /** Splitting a join of separator-free pieces gives back the pieces. */
  lemma {:induction false} SplitJoin(parts: seq<string>, sep: char)
    requires |parts| >= 1
    requires forall k :: 0 <= k < |parts| ==> sep !in parts[k]
    ensures Split(Join(parts, sep), sep) == parts
  {
    if |parts| == 1 {
      SplitWithoutSeparator(parts[0], sep);
    } else {
      SplitJoin(parts[1..], sep);
      SplitAfterPart(parts[0], Join(parts[1..], sep), sep);
      assert [parts[0]] + parts[1..] == parts;
    }
  }

  /** The characters `parseInt` skips before the number: JavaScript's white
      space (the ASCII spaces, the Unicode space separators and the byte-order
      mark) and its line terminators. */
  predicate IsSpace(c: char)
  {
    c == ' ' || c == '\t' || c == '\n' || c == '\r' || c == '\U{000B}' || c == '\U{000C}'
    || c == '\U{00A0}' || c == '\U{1680}' || ('\U{2000}' <= c <= '\U{200A}')
    || c == '\U{2028}' || c == '\U{2029}' || c == '\U{202F}' || c == '\U{205F}'
    || c == '\U{3000}' || c == '\U{FEFF}'
  }

  predicate IsDigit(c: char)
  {
    '0' <= c <= '9'
  }

  function TrimStart(s: string): (r: string)
    ensures r == [] || !IsSpace(r[0])
    ensures |r| <= |s| && r == s[|s| - |r|..]
  {
    if s != [] && IsSpace(s[0]) then TrimStart(s[1..]) else s
  }

  /** The longest prefix of `s` made of decimal digits. */
  function LeadingDigits(s: string): (r: string)
    ensures |r| <= |s| && r == s[..|r|]
    ensures forall i :: 0 <= i < |r| ==> IsDigit(r[i])
    ensures |r| < |s| ==> !IsDigit(s[|r|])
  {
    if s != [] && IsDigit(s[0]) then [s[0]] + LeadingDigits(s[1..]) else []
  }

  /** The number a string of decimal digits denotes. */
  function DigitsValue(ds: string): nat
    requires forall i :: 0 <= i < |ds| ==> IsDigit(ds[i])
  {
    if ds == [] then 0
    else
      var last := ds[|ds| - 1];
      assert IsDigit(last);
      DigitsValue(ds[..|ds| - 1]) * 10 + (last as int - '0' as int)
  }

  /** `parseInt(s, 10)`: leading white space is skipped, one sign is read,
      then the longest run of digits; `None` stands for `NaN` (no digit). */
  function ParseInt(s: string): (r: Option<int>)
    ensures r.None? <==> LeadingDigits(UnsignedPart(TrimStart(s))) == []
  {
    var t := TrimStart(s);
    var negative := t != [] && t[0] == '-';
    var digits := LeadingDigits(UnsignedPart(t));
    if digits == [] then None
    else
      var magnitude: int := DigitsValue(digits);
      Some(if negative then -magnitude else magnitude)
  }

  function UnsignedPart(t: string): string
  {
    if t != [] && (t[0] == '-' || t[0] == '+') then t[1..] else t
  }

  lemma {:induction false} DigitsValueOfNat(n: nat)
    ensures forall i :: 0 <= i < |NatToString(n)| ==> IsDigit(NatToString(n)[i])
    ensures DigitsValue(NatToString(n)) == n
  {
    if n >= 10 {
      DigitsValueOfNat(n / 10);
      var s := NatToString(n);
      assert s[..|s| - 1] == NatToString(n / 10);
    }
  }

  lemma {:induction false} LeadingDigitsOfDigits(s: string)
    requires forall i :: 0 <= i < |s| ==> IsDigit(s[i])
    ensures LeadingDigits(s) == s
  {
    if s != [] {
      LeadingDigitsOfDigits(s[1..]);
    }
  }

  lemma {:induction false} ParseIntOfDigits(sign: string, digits: string)
    requires sign == "" || sign == "-"
    requires digits != [] && forall i :: 0 <= i < |digits| ==> IsDigit(digits[i])
    ensures ParseInt(sign + digits) == Some(if sign == "-" then -(DigitsValue(digits) as int) else DigitsValue(digits))
  {
    var s := sign + digits;
    assert !IsSpace(s[0]);
    assert TrimStart(s) == s;
    if sign == "-" {
      assert s[1..] == digits;
      assert UnsignedPart(s) == digits;
    } else {
      assert s == digits;
      assert UnsignedPart(s) == digits;
    }
    LeadingDigitsOfDigits(digits);
    assert LeadingDigits(UnsignedPart(TrimStart(s))) == digits;
    assert (s[0] == '-') == (sign == "-") by {
      if sign == "" {
        assert s[0] == digits[0] && IsDigit(digits[0]);
      }
    }
  }

  /** `parseInt` reads back every integer written in decimal. */
  lemma {:induction false} ParseIntOfIntToString(n: int)
    ensures ParseInt(IntToString(n)) == Some(n)
  {
    var m: nat := if n < 0 then -n else n;
    DigitsValueOfNat(m);
    if n < 0 {
      ParseIntOfDigits("-", NatToString(m));
    } else {
      ParseIntOfDigits("", NatToString(m));
      assert "" + NatToString(m) == NatToString(m);
    }
  }
}
