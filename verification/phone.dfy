/** Phone normalisation of the sale wizard.

    The typed text is stripped of surrounding whitespace and then reduced to
    its digits and plus signs, in their original order. The wizard accepts
    the phone only when at least five such characters remain. */
module Phone {

  /** The characters a normalised phone may contain: "0123456789+". */
  predicate IsPhoneChar(c: char)
  {
    ('0' <= c <= '9') || c == '+'
  }

  /** The characters Python's `str.strip()` removes (those for which
      `str.isspace()` holds). */
  predicate IsSpace(c: char)
  {
    || c in "\t\n\U{B}\U{C}\r\U{1C}\U{1D}\U{1E}\U{1F} \U{85}\U{A0}\U{1680}\U{2028}\U{2029}\U{202F}\U{205F}\U{3000}"
    || ('\U{2000}' <= c <= '\U{200A}')
  }

  /** Drops leading whitespace (`str.lstrip()`). */
  function StripLeft(s: string): string
  {
    if |s| > 0 && IsSpace(s[0]) then StripLeft(s[1..]) else s
  }

  /** Drops trailing whitespace (`str.rstrip()`). */
  function StripRight(s: string): string
  {
    if |s| > 0 && IsSpace(s[|s| - 1]) then StripRight(s[..|s| - 1]) else s
  }

  /** What `StripLeft` keeps: a suffix of `s` that does not start with
      whitespace, everything dropped being whitespace. */
  lemma {:induction false} StripLeftKeepsSuffix(s: string)
    ensures var r := StripLeft(s);
            && |r| <= |s| && r == s[|s| - |r|..]
            && (|r| > 0 ==> !IsSpace(r[0]))
            && (forall i :: 0 <= i < |s| - |r| ==> IsSpace(s[i]))
    decreases |s|
  {
    if |s| > 0 && IsSpace(s[0]) {
      StripLeftKeepsSuffix(s[1..]);
      var r := StripLeft(s);
      forall i | 0 <= i < |s| - |r|
        ensures IsSpace(s[i])
      {
        if i > 0 {
          assert s[i] == s[1..][i - 1];
        }
      }
    }
  }

  /** What `StripRight` keeps: a prefix of `s` that does not end with
      whitespace, everything dropped being whitespace. */
  lemma {:induction false} StripRightKeepsPrefix(s: string)
    ensures var r := StripRight(s);
            && |r| <= |s| && r == s[..|r|]
            && (|r| > 0 ==> !IsSpace(r[|r| - 1]))
            && (forall i :: |r| <= i < |s| ==> IsSpace(s[i]))
    decreases |s|
  {
    if |s| > 0 && IsSpace(s[|s| - 1]) {
      var init := s[..|s| - 1];
      StripRightKeepsPrefix(init);
      var r := StripRight(s);
      assert r == StripRight(init);
      forall i | |r| <= i < |s|
        ensures IsSpace(s[i])
      {
        if i < |init| {
          assert s[i] == init[i];
        }
      }
    }
  }

  /** `text.strip()` */
  function Strip(s: string): string
  {
    StripRight(StripLeft(s))
  }

  /** `a` occurs in `b` with gaps allowed, in the same order. */
  predicate IsSubsequence(a: string, b: string)
    decreases |b|
  {
    if |a| == 0 then true
    else if |b| == 0 then false
    else if a[0] == b[0] then IsSubsequence(a[1..], b[1..])
    else IsSubsequence(a, b[1..])
  }

  /** How often `c` occurs in `s`. */
  function Count(s: string, c: char): nat
  {
    if |s| == 0 then 0 else (if s[0] == c then 1 else 0) + Count(s[1..], c)
  }

  /** Keeps the phone characters of `s`, dropping every other character. */
  function KeepPhoneChars(s: string): (r: string)
    ensures forall i :: 0 <= i < |r| ==> IsPhoneChar(r[i])
    ensures IsSubsequence(r, s)
    ensures forall c :: IsPhoneChar(c) ==> Count(r, c) == Count(s, c)
  {
    if |s| == 0 then ""
    else
      var rest := KeepPhoneChars(s[1..]);
      if IsPhoneChar(s[0]) then
        var r := [s[0]] + rest;
        assert r[0] == s[0] && r[1..] == rest;
        r
      else rest
  }

  function NormalizePhone(text: string): string
  {
    KeepPhoneChars(Strip(text))
  }

  /** The wizard's acceptance test for a typed phone number. */
  predicate PhoneAccepted(text: string)
  {
    |NormalizePhone(text)| >= 5
  }

  /** Stripping first makes no difference: whitespace is never kept. */
  lemma {:induction false} NormalizeIgnoresStrip(text: string)
    ensures NormalizePhone(text) == KeepPhoneChars(text)
  {
    KeepIgnoresStripLeft(text);
    KeepIgnoresStripRight(StripLeft(text));
  }

  lemma {:induction false} KeepIgnoresStripLeft(s: string)
    ensures KeepPhoneChars(StripLeft(s)) == KeepPhoneChars(s)
    decreases |s|
  {
    if |s| > 0 && IsSpace(s[0]) {
      SpaceIsNotPhoneChar(s[0]);
      assert KeepPhoneChars(s) == KeepPhoneChars(s[1..]);
      KeepIgnoresStripLeft(s[1..]);
    }
  }

  lemma {:induction false} KeepIgnoresStripRight(s: string)
    ensures KeepPhoneChars(StripRight(s)) == KeepPhoneChars(s)
    decreases |s|
  {
    if |s| > 0 && IsSpace(s[|s| - 1]) {
      var init, c := s[..|s| - 1], s[|s| - 1];
      SplitLast(s);
      assert StripRight(s) == StripRight(init);
      KeepIgnoresStripRight(init);
      KeepIgnoresTrailingSpace(init, c);
    }
  }

  lemma SplitLast(s: string)
    requires |s| > 0
    ensures s == s[..|s| - 1] + [s[|s| - 1]]
  {
  }

  lemma KeepIgnoresTrailingSpace(init: string, c: char)
    requires IsSpace(c)
    ensures KeepPhoneChars(init + [c]) == KeepPhoneChars(init)
  {
    KeepConcat(init, [c]);
    SpaceIsNotPhoneChar(c);
    assert KeepPhoneChars([c]) == KeepPhoneChars([c][1..]);
    assert [c][1..] == [];
    assert KeepPhoneChars(init) + [] == KeepPhoneChars(init);
  }

  lemma SpaceIsNotPhoneChar(c: char)
    requires IsSpace(c)
    ensures !IsPhoneChar(c)
  {
  }

  /** Filtering distributes over concatenation. */
  lemma {:induction false} KeepConcat(a: string, b: string)
    ensures KeepPhoneChars(a + b) == KeepPhoneChars(a) + KeepPhoneChars(b)
    decreases |a|
  {
    if |a| > 0 {
      var x, rest := a[0], a[1..];
      SplitFirst(a, b);
      KeepCons(x, rest + b);
      KeepCons(x, rest);
      KeepConcat(rest, b);
      var head := if IsPhoneChar(x) then [x] else [];
      assert head + (KeepPhoneChars(rest) + KeepPhoneChars(b)) == (head + KeepPhoneChars(rest)) + KeepPhoneChars(b);
    } else {
      assert a + b == b;
    }
  }

  lemma SplitFirst(a: string, b: string)
    requires |a| > 0
    ensures a == [a[0]] + a[1..] && a + b == [a[0]] + (a[1..] + b)
  {
  }

  /** One step of the filter. */
  lemma KeepCons(x: char, t: string)
    ensures KeepPhoneChars([x] + t) == (if IsPhoneChar(x) then [x] else []) + KeepPhoneChars(t)
  {
    assert ([x] + t)[0] == x && ([x] + t)[1..] == t;
  }

  /** A string of phone characters is its own normal form. */
  lemma {:induction false} KeepFixesPhoneStrings(s: string)
    requires forall i :: 0 <= i < |s| ==> IsPhoneChar(s[i])
    ensures KeepPhoneChars(s) == s
    decreases |s|
  {
    if |s| > 0 {
      KeepFixesPhoneStrings(s[1..]);
    }
  }

  /** Normalising twice is normalising once. */
  lemma NormalizeIdempotent(text: string)
    ensures NormalizePhone(NormalizePhone(text)) == NormalizePhone(text)
  {
    var once := NormalizePhone(text);
    NormalizeIgnoresStrip(once);
    KeepFixesPhoneStrings(once);
  }

  /** What the normal form is, independently of how it is computed: it is a
      subsequence of the typed text made of phone characters only, and it
      keeps every phone character of the text. Any string with these three
      properties is the normal form. */
  lemma NormalizeCharacterised(text: string, r: string)
    ensures r == NormalizePhone(text) <==>
              && (forall i :: 0 <= i < |r| ==> IsPhoneChar(r[i]))
              && IsSubsequence(r, text)
              && (forall c :: IsPhoneChar(c) ==> Count(r, c) == Count(text, c))
  {
    NormalizeIgnoresStrip(text);
    if && (forall i :: 0 <= i < |r| ==> IsPhoneChar(r[i]))
       && IsSubsequence(r, text)
       && (forall c :: IsPhoneChar(c) ==> Count(r, c) == Count(text, c))
    {
      FilterUnique(r, text);
    }
  }

  /** A subsequence never holds more copies of a character than the whole. */
  lemma {:induction false} SubsequenceCounts(a: string, b: string, c: char)
    requires IsSubsequence(a, b)
    ensures Count(a, c) <= Count(b, c)
    decreases |b|
  {
    if |a| > 0 {
      if a[0] == b[0] {
        SubsequenceCounts(a[1..], b[1..], c);
      } else {
        SubsequenceCounts(a, b[1..], c);
      }
    }
  }

  lemma {:induction false} FilterUnique(r: string, s: string)
    requires forall i :: 0 <= i < |r| ==> IsPhoneChar(r[i])
    requires IsSubsequence(r, s)
    requires forall c :: IsPhoneChar(c) ==> Count(r, c) == Count(s, c)
    ensures r == KeepPhoneChars(s)
    decreases |s|
  {
    if |s| == 0 {
      assert |r| == 0;
    } else {
      var x := s[0];
      if IsPhoneChar(x) {
        assert Count(r, x) == Count(s, x) > 0;
        assert |r| > 0;
        assert r == [r[0]] + r[1..];
        if r[0] == x {
          forall c | IsPhoneChar(c)
            ensures Count(r[1..], c) == Count(s[1..], c)
          {
          }
          FilterUnique(r[1..], s[1..]);
        } else {
          SubsequenceCounts(r, s[1..], x);
          assert false;
        }
      } else {
        if |r| > 0 {
          assert r[0] != x;
        }
        assert IsSubsequence(r, s[1..]);
        forall c | IsPhoneChar(c)
          ensures Count(r, c) == Count(s[1..], c)
        {
        }
        FilterUnique(r, s[1..]);
      }
    }
  }

  /** A subsequence is never longer than the whole. */
  lemma {:induction false} SubsequenceLength(a: string, b: string)
    requires IsSubsequence(a, b)
    ensures |a| <= |b|
    decreases |b|
  {
    if |a| > 0 {
      if a[0] == b[0] {
        SubsequenceLength(a[1..], b[1..]);
      } else {
        SubsequenceLength(a, b[1..]);
      }
    }
  }

  /** Phone characters picked out of a text in order survive the filter. */
  lemma {:induction false} PhoneSubsequenceKept(r: string, s: string)
    requires forall i :: 0 <= i < |r| ==> IsPhoneChar(r[i])
    requires IsSubsequence(r, s)
    ensures IsSubsequence(r, KeepPhoneChars(s))
    decreases |s|
  {
    if |r| > 0 {
      var kept := KeepPhoneChars(s);
      var rest := KeepPhoneChars(s[1..]);
      if IsPhoneChar(s[0]) {
        assert kept == [s[0]] + rest;
        assert kept[1..] == rest;
        if r[0] == s[0] {
          PhoneSubsequenceKept(r[1..], s[1..]);
        } else {
          PhoneSubsequenceKept(r, s[1..]);
        }
      } else {
        assert r[0] != s[0];
        assert kept == rest;
        PhoneSubsequenceKept(r, s[1..]);
      }
    }
  }

  /** The wizard accepts a typed phone exactly when at least five phone
      characters can be picked out of it in order. */
  lemma PhoneAcceptedCharacterised(text: string)
    ensures PhoneAccepted(text) <==>
              exists r :: IsSubsequence(r, text) && |r| >= 5 && (forall i :: 0 <= i < |r| ==> IsPhoneChar(r[i]))
  {
    NormalizeIgnoresStrip(text);
    var kept := KeepPhoneChars(text);
    if PhoneAccepted(text) {
      assert IsSubsequence(kept, text) && |kept| >= 5;
    }
    if exists r :: IsSubsequence(r, text) && |r| >= 5 && (forall i :: 0 <= i < |r| ==> IsPhoneChar(r[i])) {
      var r :| IsSubsequence(r, text) && |r| >= 5 && (forall i :: 0 <= i < |r| ==> IsPhoneChar(r[i]));
      PhoneSubsequenceKept(r, text);
      SubsequenceLength(r, kept);
    }
  }
}
