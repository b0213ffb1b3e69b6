/** The handful of `java.lang.String` operations the reporter relies on,
    over `seq<char>`: concatenation of fragments, decimal rendering,
    `replace` of one character by nothing, ASCII case mapping,
    `equalsIgnoreCase`, `Boolean.parseBoolean` and `split` on a single
    separator character. */
module Strings {
  import opened Outcomes

  /** The concatenation of text fragments, as a `StringBuilder` collects them. */
  function Concat(parts: seq<string>): string
  {
    if |parts| == 0 then "" else parts[0] + Concat(parts[1..])
  }

  /** The empty string is neutral, and concatenation is associative. */
  lemma AppendFacts(a: string, b: string, c: string)
    ensures a + "" == a && "" + a == a
    ensures a + (b + c) == a + b + c
  {
  }

  lemma ConcatSingle(x: string)
    ensures Concat([x]) == x
  {
    assert Concat([x]) == x + Concat([]);
    AppendFacts(x, "", "");
  }

  lemma {:induction false} ConcatAppend(a: seq<string>, b: seq<string>)
    ensures Concat(a + b) == Concat(a) + Concat(b)
  {
    if |a| == 0 {
      assert a + b == b;
    } else {
      assert (a + b)[1..] == a[1..] + b;
      ConcatAppend(a[1..], b);
    }
  }

  /** A concatenation is empty exactly when every fragment is. */
  lemma {:induction false} ConcatEmpty(parts: seq<string>)
    ensures Concat(parts) == "" <==> forall i :: 0 <= i < |parts| ==> parts[i] == ""
  {
    if |parts| > 0 {
      ConcatEmpty(parts[1..]);
      assert forall i :: 1 <= i < |parts| ==> parts[i] == parts[1..][i - 1];
    }
  }

  predicate StartsWith(s: string, prefix: string)
  {
    |prefix| <= |s| && s[..|prefix|] == prefix
  }

  predicate EndsWith(s: string, suffix: string)
  {
    |suffix| <= |s| && s[|s| - |suffix|..] == suffix
  }

  /** A text starts with the first of the pieces it is made of. */
  lemma PrefixOfAppend(a: string, b: string, c: string)
    ensures StartsWith(a + b + c, a)
  {
    assert (a + b + c)[..|a|] == a;
  }

  /** `StringUtils.removeEnd`: `s` without `suffix` when it ends with it, else `s`. */
  function RemoveEnd(s: string, suffix: string): (r: string)
    ensures EndsWith(s, suffix) ==> r + suffix == s
    ensures !EndsWith(s, suffix) ==> r == s
  {
    if EndsWith(s, suffix) then s[..|s| - |suffix|] else s
  }

  lemma RemoveEndOfAppend(p: string, suffix: string)
    ensures RemoveEnd(p + suffix, suffix) == p
  {
    var s := p + suffix;
    assert s[|s| - |suffix|..] == suffix;
    assert s[..|s| - |suffix|] == p;
  }

  // ---------------------------------------------------------------------
  // Decimal rendering of a non-negative number (`String.valueOf(long)`)
  // ---------------------------------------------------------------------

  predicate IsDigit(c: char)
  {
    '0' <= c <= '9'
  }

  function DigitChar(d: nat): (c: char)
    requires d < 10
    ensures IsDigit(c) && c as int - '0' as int == d
  {
    (d + '0' as int) as char
  }

  /** The decimal digits of `n`, most significant first, without leading zeros. */
  function NatToString(n: nat): (r: string)
    ensures |r| > 0
    ensures forall i :: 0 <= i < |r| ==> IsDigit(r[i])
    ensures |r| > 1 ==> r[0] != '0'
    decreases n
  {
    if n < 10 then [DigitChar(n)] else NatToString(n / 10) + [DigitChar(n % 10)]
  }

  /** Reads a string of decimal digits back as a number. */
  function DigitsValue(s: string): nat
    requires forall i :: 0 <= i < |s| ==> IsDigit(s[i])
  {
    if |s| == 0 then 0
    else
      assert IsDigit(s[|s| - 1]);
      10 * DigitsValue(s[..|s| - 1]) + (s[|s| - 1] as int - '0' as int)
  }

  /** The decimal rendering loses nothing: two different numbers never give the
      same subgraph suffix. */
  lemma {:induction false} NatToStringRoundTrip(n: nat)
    ensures DigitsValue(NatToString(n)) == n
    decreases n
  {
    if n >= 10 {
      var s := NatToString(n);
      assert s[..|s| - 1] == NatToString(n / 10);
      NatToStringRoundTrip(n / 10);
    }
  }

  lemma NatToStringInjective(m: nat, n: nat)
    ensures NatToString(m) == NatToString(n) ==> m == n
  {
    NatToStringRoundTrip(m);
    NatToStringRoundTrip(n);
  }

  // ---------------------------------------------------------------------
  // `s.replace(String.valueOf(c), "")`
  // ---------------------------------------------------------------------

  /** `s` with every occurrence of `c` removed, the other characters kept in order. */
  function RemoveAll(s: string, c: char): (r: string)
    ensures c !in r
    ensures forall x :: x in r <==> x in s && x != c
    ensures |r| == |s| - multiset(s)[c]
    ensures c !in s ==> r == s
  {
    if |s| == 0 then ""
    else
      assert s == [s[0]] + s[1..];
      if s[0] == c then RemoveAll(s[1..], c)
      else [s[0]] + RemoveAll(s[1..], c)
  }

  /** Removal works piece by piece: on a single character it drops `c` and
      keeps anything else, and on a concatenation it removes from each part
      and keeps the parts in order. Together these fix the result. */
  lemma RemoveAllSingle(x: char, c: char)
    ensures RemoveAll([x], c) == if x == c then "" else [x]
  {
    assert [x][1..] == "";
  }

  lemma {:induction false} RemoveAllConcat(a: string, b: string, c: char)
    ensures RemoveAll(a + b, c) == RemoveAll(a, c) + RemoveAll(b, c)
  {
    if |a| > 0 {
      RemoveAllConcat(a[1..], b, c);
      RemoveAllCons(a, b, c);
      AppendFacts(if a[0] == c then "" else [a[0]], RemoveAll(a[1..], c), RemoveAll(b, c));
    } else {
      assert a + b == b;
    }
  }

  lemma RemoveAllCons(a: string, b: string, c: char)
    requires |a| > 0
    ensures RemoveAll(a + b, c) == (if a[0] == c then "" else [a[0]]) + RemoveAll(a[1..] + b, c)
    ensures RemoveAll(a, c) == (if a[0] == c then "" else [a[0]]) + RemoveAll(a[1..], c)
  {
    assert (a + b)[0] == a[0];
    assert (a + b)[1..] == a[1..] + b;
  }

  // ---------------------------------------------------------------------
  // Case mapping (ASCII letters only)
  // ---------------------------------------------------------------------

  predicate IsUpperLetter(c: char)
  {
    'A' <= c <= 'Z'
  }

  predicate IsLowerLetter(c: char)
  {
    'a' <= c <= 'z'
  }

  function UpperChar(c: char): (r: char)
    ensures IsLowerLetter(c) ==> IsUpperLetter(r) && r as int == c as int - 32
    ensures !IsLowerLetter(c) ==> r == c
  {
    if IsLowerLetter(c) then (c as int - 32) as char else c
  }

  function LowerChar(c: char): (r: char)
    ensures IsUpperLetter(c) ==> IsLowerLetter(r) && r as int == c as int + 32
    ensures !IsUpperLetter(c) ==> r == c
  {
    if IsUpperLetter(c) then (c as int + 32) as char else c
  }

  /** `String.toUpperCase()`, restricted to ASCII letters. */
  function ToUpper(s: string): (r: string)
    ensures |r| == |s|
    ensures forall i :: 0 <= i < |s| ==> r[i] == UpperChar(s[i])
  {
    if |s| == 0 then "" else [UpperChar(s[0])] + ToUpper(s[1..])
  }

  /** `String.toLowerCase()`, restricted to ASCII letters. */
  function ToLower(s: string): (r: string)
    ensures |r| == |s|
    ensures forall i :: 0 <= i < |s| ==> r[i] == LowerChar(s[i])
  {
    if |s| == 0 then "" else [LowerChar(s[0])] + ToLower(s[1..])
  }

  /** Upper-casing leaves a string without lower-case letters as it is. */
  lemma UpperFixesNonLower(s: string)
    requires forall i :: 0 <= i < |s| ==> !IsLowerLetter(s[i])
    ensures ToUpper(s) == s
  {
  }

  /** Lower-casing leaves a string without upper-case letters as it is. */
  lemma LowerFixesNonUpper(s: string)
    requires forall i :: 0 <= i < |s| ==> !IsUpperLetter(s[i])
    ensures ToLower(s) == s
  {
  }

  predicate NoUpperLetters(s: string)
  {
    forall i :: 0 <= i < |s| ==> !IsUpperLetter(s[i])
  }

  /** `String.equalsIgnoreCase`: same length and the characters agree once upper-cased. */
  predicate EqualsIgnoreCase(a: string, b: string)
  {
    |a| == |b| && forall i :: 0 <= i < |a| ==> UpperChar(a[i]) == UpperChar(b[i])
  }

  /** Between strings that hold no upper-case letters, ignoring case changes nothing. */
  lemma EqualsIgnoreCaseOfLower(a: string, b: string)
    requires NoUpperLetters(a) && NoUpperLetters(b)
    ensures EqualsIgnoreCase(a, b) <==> a == b
  {
    if EqualsIgnoreCase(a, b) {
      forall i | 0 <= i < |a|
        ensures a[i] == b[i]
      {
        assert UpperChar(a[i]) == UpperChar(b[i]);
      }
    }
  }

  /** `Boolean.parseBoolean`: true exactly for a non-null "true" in any case. */
  function ParseBoolean(s: Option<string>): (r: bool)
    ensures r <==> s.Some? && |s.value| == 4 && ToLower(s.value) == "true"
  {
    match s
    case None => false
    case Some(v) => EqualsIgnoreCase(v, "true")
  }

  // ---------------------------------------------------------------------
  // `String.split` on a single (non-meta) separator character
  // ---------------------------------------------------------------------

  /** All the pieces between separators, including empty ones: always one more
      piece than there are separators. */
  function SplitAll(s: string, sep: char): (r: seq<string>)
    ensures |r| >= 1
    ensures forall i :: 0 <= i < |r| ==> sep !in r[i]
    ensures sep !in s ==> r == [s]
  {
    if |s| == 0 then [""]
    else
      var rest := SplitAll(s[1..], sep);
      assert s == [s[0]] + s[1..];
      if s[0] == sep then [""] + rest
      else [[s[0]] + rest[0]] + rest[1..]
  }

  /** The pieces glued back together with the separator between them. */
  function Join(parts: seq<string>, sep: char): string
    requires |parts| >= 1
  {
    if |parts| == 1 then parts[0] else parts[0] + [sep] + Join(parts[1..], sep)
  }

  /** Splitting loses nothing: joining the pieces gives back the original text. */
  lemma {:induction false} JoinSplitAll(s: string, sep: char)
    ensures Join(SplitAll(s, sep), sep) == s
  {
    if |s| > 0 {
      var rest := SplitAll(s[1..], sep);
      JoinSplitAll(s[1..], sep);
      if s[0] == sep {
        assert ([""] + rest)[1..] == rest;
        assert s == [sep] + s[1..];
      } else {
        var r := [[s[0]] + rest[0]] + rest[1..];
        if |rest| == 1 {
          assert s == [s[0]] + s[1..];
        } else {
          assert r[1..] == rest[1..];
          assert Join(rest, sep) == rest[0] + [sep] + Join(rest[1..], sep);
          assert s == [s[0]] + s[1..];
        }
      }
    }
  }

  lemma {:induction false} SplitAllPrefix(p: string, sep: char, t: string)
    requires sep !in p
    ensures SplitAll(p + [sep] + t, sep) == [p] + SplitAll(t, sep)
    decreases |p|
  {
    if |p| == 0 {
      assert p + [sep] + t == [sep] + t;
      assert ([sep] + t)[1..] == t;
    } else {
      assert (p + [sep] + t)[1..] == p[1..] + [sep] + t;
      SplitAllPrefix(p[1..], sep, t);
      assert [p[0]] + p[1..] == p;
    }
  }

  /** Joining pieces that contain no separator and splitting again gives the pieces back. */
  lemma {:induction false} SplitAllJoin(parts: seq<string>, sep: char)
    requires |parts| >= 1
    requires forall i :: 0 <= i < |parts| ==> sep !in parts[i]
    ensures SplitAll(Join(parts, sep), sep) == parts
  {
    if |parts| > 1 {
      SplitAllJoin(parts[1..], sep);
      SplitAllPrefix(parts[0], sep, Join(parts[1..], sep));
      assert [parts[0]] + parts[1..] == parts;
    }
  }

  /** Drops the empty strings at the end of a list of pieces. */
  function DropTrailingEmpty(xs: seq<string>): (r: seq<string>)
    ensures |r| <= |xs| && r == xs[..|r|]
    ensures |r| == 0 || r[|r| - 1] != ""
    ensures forall i :: |r| <= i < |xs| ==> xs[i] == ""
  {
    if |xs| > 0 && xs[|xs| - 1] == "" then DropTrailingEmpty(xs[..|xs| - 1]) else xs
  }

  /** `s` consists of separators only (the empty text included). */
  predicate AllSep(s: string, sep: char)
  {
    forall i :: 0 <= i < |s| ==> s[i] == sep
  }

  /** The text before the first `sep`; all of `s` when there is none. */
  function UpToSep(s: string, sep: char): (r: string)
    ensures sep !in r
  {
    if |s| == 0 || s[0] == sep then "" else [s[0]] + UpToSep(s[1..], sep)
  }

  /** The text after the first `sep`; empty when there is none. */
  function AfterSep(s: string, sep: char): string
  {
    if |s| == 0 then "" else if s[0] == sep then s[1..] else AfterSep(s[1..], sep)
  }

  /** The text is cut at its first separator. */
  lemma {:induction false} CutAtFirstSep(s: string, sep: char)
    ensures sep in s ==> s == UpToSep(s, sep) + [sep] + AfterSep(s, sep)
    ensures sep !in s ==> UpToSep(s, sep) == s && AfterSep(s, sep) == ""
  {
    if |s| > 0 {
      CutAtFirstSep(s[1..], sep);
      assert s == [s[0]] + s[1..];
      if s[0] != sep {
        assert sep in s ==> sep in s[1..];
      }
    }
  }

  /** The first piece of a split is the text before the first separator. */
  lemma SplitAllFirst(s: string, sep: char)
    ensures SplitAll(s, sep)[0] == UpToSep(s, sep)
  {
    CutAtFirstSep(s, sep);
    if sep in s {
      SplitAllPrefix(UpToSep(s, sep), sep, AfterSep(s, sep));
    }
  }

  /** Every piece is empty exactly when the text is separators only. */
  lemma {:induction false} SplitAllEmptyPieces(s: string, sep: char)
    ensures (forall i :: 0 <= i < |SplitAll(s, sep)| ==> SplitAll(s, sep)[i] == "") <==> AllSep(s, sep)
  {
    if |s| > 0 {
      SplitAllEmptyPieces(s[1..], sep);
      var rest := SplitAll(s[1..], sep);
      if s[0] == sep {
        var all := SplitAll(s, sep);
        assert all == [""] + rest;
        assert forall i :: 1 <= i < |all| ==> all[i] == rest[i - 1];
        assert forall i :: 1 <= i < |s| ==> s[i] == s[1..][i - 1];
        assert AllSep(s, sep) <==> AllSep(s[1..], sep);
        if forall i :: 0 <= i < |rest| ==> rest[i] == "" {
          forall i | 0 <= i < |all| ensures all[i] == "" {
            if i > 0 { assert all[i] == rest[i - 1]; }
          }
        } else {
          var i :| 0 <= i < |rest| && rest[i] != "";
          assert all[i + 1] == rest[i];
        }
      } else {
        assert SplitAll(s, sep)[0] == [s[0]] + rest[0];
      }
    }
  }

  /** What `split` yields, read off the raw text: nothing when the text is
      non-empty separators only; otherwise its first piece is the text before
      the first separator, and there is a second piece exactly when something
      other than separators follows that separator, namely the text up to the
      next one. */
  lemma JavaSplitShape(s: string, sep: char)
    ensures JavaSplit(s, sep) == [] <==> |s| > 0 && AllSep(s, sep)
    ensures JavaSplit(s, sep) != [] ==> JavaSplit(s, sep)[0] == UpToSep(s, sep)
    ensures JavaSplit(s, sep) != [] ==> (|JavaSplit(s, sep)| >= 2 <==> !AllSep(AfterSep(s, sep), sep))
    ensures |JavaSplit(s, sep)| >= 2 ==> JavaSplit(s, sep)[1] == UpToSep(AfterSep(s, sep), sep)
  {
    CutAtFirstSep(s, sep);
    if sep in s {
      var k := UpToSep(s, sep);
      var t := AfterSep(s, sep);
      SplitAllPrefix(k, sep, t);
      assert s == k + [sep] + t;
      SplitAllEmptyPieces(t, sep);
      SplitAllFirst(t, sep);
      AllSepOfCut(s, sep, k, t);
      TrailingDropped(SplitAll(s, sep), JavaSplit(s, sep), k, SplitAll(t, sep));
    }
  }

  /** Separators only, cut at the first separator: nothing before it and
      separators only after it. */
  lemma AllSepOfCut(s: string, sep: char, k: string, t: string)
    requires sep !in k && s == k + [sep] + t
    ensures AllSep(s, sep) <==> k == "" && AllSep(t, sep)
  {
    if |k| > 0 {
      assert s[0] == k[0] && k[0] in k;
    }
    if AllSep(s, sep) {
      forall i | 0 <= i < |t| ensures t[i] == sep {
        assert t[i] == s[|k| + 1 + i];
      }
    }
    if k == "" && AllSep(t, sep) {
      assert s == [sep] + t;
      forall i | 0 <= i < |s| ensures s[i] == sep {
        if i > 0 { assert s[i] == t[i - 1]; }
      }
    }
  }

  /** Dropping the trailing empty pieces of `[k] + pieces`. */
  lemma TrailingDropped(all: seq<string>, r: seq<string>, k: string, pieces: seq<string>)
    requires all == [k] + pieces
    requires |r| <= |all| && r == all[..|r|]
    requires |r| == 0 || r[|r| - 1] != ""
    requires forall i :: |r| <= i < |all| ==> all[i] == ""
    ensures r == [] <==> k == "" && forall i :: 0 <= i < |pieces| ==> pieces[i] == ""
    ensures r != [] ==> r[0] == k
    ensures r != [] ==> (|r| >= 2 <==> exists i :: 0 <= i < |pieces| && pieces[i] != "")
    ensures |r| >= 2 ==> r[1] == pieces[0]
  {
    assert forall i :: 0 <= i < |pieces| ==> pieces[i] == all[i + 1];
    if r == [] {
      assert all[0] == k;
    }
    if |r| >= 2 {
      assert pieces[|r| - 2] != "";
    } else if r != [] {
      forall i | 0 <= i < |pieces| ensures pieces[i] == "" {
        assert all[i + 1] == pieces[i];
      }
    }
  }

  /** Java's `s.split(String.valueOf(sep))` for a separator that is not a regular
      expression metacharacter: the text itself when the separator does not occur
      (even when the text is empty), otherwise every piece with the trailing
      empty pieces removed (possibly none at all, as for ":".split(":")). */
  function JavaSplit(s: string, sep: char): (r: seq<string>)
    ensures forall i :: 0 <= i < |r| ==> sep !in r[i]
    ensures sep !in s ==> r == [s]
    ensures sep in s ==>
              var all := SplitAll(s, sep);
              && |r| <= |all| && r == all[..|r|]
              && (|r| == 0 || r[|r| - 1] != "")
              && forall i :: |r| <= i < |all| ==> all[i] == ""
  {
    if sep !in s then [s] else DropTrailingEmpty(SplitAll(s, sep))
  }
}
