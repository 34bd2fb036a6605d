/** The character filter applied to the three currency fields of the form. */
module CurrencyFilter {

  /** A character the currency filter keeps: a decimal digit or the decimal point. */
  predicate IsCurrencyChar(c: char) {
    '0' <= c <= '9' || c == '.'
  }

  /** Every character of `s` is a digit or a point. */
  predicate AllCurrency(s: string) {
    forall i :: 0 <= i < |s| ==> IsCurrencyChar(s[i])
  }

  /** Deletes every character that is neither a digit nor a point, as the
      global regular-expression replacement on the currency fields does. */
  function KeepNumeric(s: string): (r: string)
    ensures AllCurrency(r)
    ensures |r| <= |s|
  {
    if s == [] then []
    else if IsCurrencyChar(s[0]) then [s[0]] + KeepNumeric(s[1..])
    else KeepNumeric(s[1..])
  }

  /** `t` can be obtained from `s` by deleting characters. */
  ghost predicate IsSubsequence(t: string, s: string)
    decreases |s|
  {
    if t == [] then true
    else if s == [] then false
    else (t[0] == s[0] && IsSubsequence(t[1..], s[1..])) || IsSubsequence(t, s[1..])
  }

  /** How often `c` occurs in `s` among the characters the filter keeps. */
  function KeptCount(s: string, c: char): nat {
    if IsCurrencyChar(c) then multiset(s)[c] else 0
  }

  /** The filter keeps the order of what it keeps: its output is a subsequence of its input. */
  lemma {:induction false} KeepNumericIsSubsequence(s: string)
    ensures IsSubsequence(KeepNumeric(s), s)
  {
    if s != [] {
      KeepNumericIsSubsequence(s[1..]);
      if !IsCurrencyChar(s[0]) {
        SubsequenceOfTail(KeepNumeric(s[1..]), s);
      }
    }
  }

  /** A subsequence of the tail of `s` is a subsequence of `s`. */
  lemma SubsequenceOfTail(t: string, s: string)
    requires s != [] && IsSubsequence(t, s[1..])
    ensures IsSubsequence(t, s)
  {
  }

  /** The filter keeps every digit and point of its input, each as often as it occurs,
      and nothing else. */
  lemma {:induction false} KeepNumericCounts(s: string, c: char)
    ensures multiset(KeepNumeric(s))[c] == KeptCount(s, c)
  {
    if s != [] {
      KeepNumericCounts(s[1..], c);
      assert s == [s[0]] + s[1..];
      assert multiset(s) == multiset{s[0]} + multiset(s[1..]);
    }
  }

  /** A subsequence never holds a character more often than the sequence it is taken from. */
  lemma {:induction false} SubsequenceCounts(t: string, s: string, c: char)
    requires IsSubsequence(t, s)
    ensures multiset(t)[c] <= multiset(s)[c]
    decreases |s|
  {
    if t != [] {
      assert s == [s[0]] + s[1..];
      assert t == [t[0]] + t[1..];
      if t[0] == s[0] && IsSubsequence(t[1..], s[1..]) {
        SubsequenceCounts(t[1..], s[1..], c);
      } else {
        SubsequenceCounts(t, s[1..], c);
      }
    }
  }

  /** The filter is the only function with the properties above: a subsequence of the input
      that holds every digit and point of the input as often as it occurs there, and no other
      character (the count clause gives a zero count to every other character). */
  lemma {:induction false} KeepNumericUnique(t: string, s: string)
    requires IsSubsequence(t, s)
    requires forall c :: multiset(t)[c] == KeptCount(s, c)
    ensures t == KeepNumeric(s)
    decreases |s|
  {
    if s == [] {
      assert t == [];
    } else {
      assert s == [s[0]] + s[1..];
      if t == [] {
        assert multiset(s)[s[0]] >= 1;
        assert KeptCount(s, s[0]) == multiset(t)[s[0]] == 0;
        forall c ensures multiset(t)[c] == KeptCount(s[1..], c) {
          assert multiset(s)[c] == multiset{s[0]}[c] + multiset(s[1..])[c];
        }
        KeepNumericUnique(t, s[1..]);
      } else {
        assert t == [t[0]] + t[1..];
        if IsCurrencyChar(s[0]) {
          assert multiset(s)[s[0]] == 1 + multiset(s[1..])[s[0]];
          if t[0] == s[0] && IsSubsequence(t[1..], s[1..]) {
            forall c ensures multiset(t[1..])[c] == KeptCount(s[1..], c) {
              assert multiset(s)[c] == multiset{s[0]}[c] + multiset(s[1..])[c];
              assert multiset(t)[c] == multiset{t[0]}[c] + multiset(t[1..])[c];
            }
            KeepNumericUnique(t[1..], s[1..]);
          } else {
            SubsequenceCounts(t, s[1..], s[0]);
            assert false;
          }
        } else {
          assert t[0] != s[0] by {
            assert multiset(t)[t[0]] >= 1;
            assert multiset(t)[s[0]] == KeptCount(s, s[0]) == 0;
          }
          forall c ensures multiset(t)[c] == KeptCount(s[1..], c) {
            assert multiset(s)[c] == multiset{s[0]}[c] + multiset(s[1..])[c];
          }
          KeepNumericUnique(t, s[1..]);
        }
      }
    }
  }

  /** A string of digits and points passes the filter unchanged. */
  lemma {:induction false} KeepNumericOfCurrency(s: string)
    requires AllCurrency(s)
    ensures KeepNumeric(s) == s
  {
    if s != [] {
      assert AllCurrency(s[1..]) by {
        forall i | 0 <= i < |s[1..]| ensures IsCurrencyChar(s[1..][i]) {
          assert s[1..][i] == s[i + 1];
        }
      }
      KeepNumericOfCurrency(s[1..]);
    }
  }

  /** Filtering twice is the same as filtering once. */
  lemma KeepNumericIdempotent(s: string)
    ensures KeepNumeric(KeepNumeric(s)) == KeepNumeric(s)
  {
    KeepNumericOfCurrency(KeepNumeric(s));
  }

  /** The filter works piece by piece. */
  lemma {:induction false} KeepNumericConcat(a: string, b: string)
    ensures KeepNumeric(a + b) == KeepNumeric(a) + KeepNumeric(b)
  {
    if a == [] {
      assert a + b == b;
    } else {
      assert (a + b)[0] == a[0] && (a + b)[1..] == a[1..] + b;
      KeepNumericConcat(a[1..], b);
      if IsCurrencyChar(a[0]) {
        assert KeepNumeric(a + b) == [a[0]] + (KeepNumeric(a[1..]) + KeepNumeric(b));
      }
    }
  }

  /** A dollar amount typed with a currency sign and a thousands separator. */
  lemma DollarAmountExample()
    ensures KeepNumeric("$1,200.50") == "1200.50"
  {
    KeepNumericConcat("$1,", "200.50");
    KeepNumericOfCurrency("200.50");
    assert KeepNumeric("$1,") == "1";
    assert "$1,200.50" == "$1," + "200.50";
  }
}
