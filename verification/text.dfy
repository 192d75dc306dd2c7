/** Text operations the converters apply to cell values: Python's
    str.strip, the two name normalisations, ASCII lower-casing,
    xml.sax.saxutils.escape, str.split on one separator, and decimal
    rendering of integers (Python's str(int)). */
module Text {
  import opened Outcome

  /** Python's str.isspace: the characters str.strip() removes and the
      regular expression class \s matches. */
  predicate IsSpace(c: char) {
    || ('\t' <= c <= '\r')
    || ('\U{1c}' <= c <= '\U{20}')
    || c == '\U{85}' || c == '\U{a0}' || c == '\U{1680}'
    || ('\U{2000}' <= c <= '\U{200a}')
    || c == '\U{2028}' || c == '\U{2029}' || c == '\U{202f}' || c == '\U{205f}' || c == '\U{3000}'
  }

  /** The number of whitespace characters s starts with. */
  function LeadingSpaces(s: string): (n: nat)
    ensures n <= |s|
    ensures forall k :: 0 <= k < n ==> IsSpace(s[k])
    ensures n < |s| ==> !IsSpace(s[n])
  {
    if |s| == 0 || !IsSpace(s[0]) then 0 else 1 + LeadingSpaces(s[1..])
  }

  /** The number of whitespace characters s ends with. */
  function TrailingSpaces(s: string): (n: nat)
    ensures n <= |s|
    ensures forall k :: |s| - n <= k < |s| ==> IsSpace(s[k])
    ensures n < |s| ==> !IsSpace(s[|s| - n - 1])
  {
    if |s| == 0 || !IsSpace(s[|s| - 1]) then 0 else 1 + TrailingSpaces(s[..|s| - 1])
  }

  /** str.strip(): the text between the leading and the trailing
      whitespace; nothing when the text is all whitespace. */
  function Strip(s: string): (r: string)
    ensures LeadingSpaces(s) + |r| <= |s| && r == s[LeadingSpaces(s)..LeadingSpaces(s) + |r|]
    ensures forall k :: 0 <= k < LeadingSpaces(s) ==> IsSpace(s[k])
    ensures forall k :: LeadingSpaces(s) + |r| <= k < |s| ==> IsSpace(s[k])
    ensures |r| > 0 ==> !IsSpace(r[0]) && !IsSpace(r[|r| - 1])
  {
    var i := LeadingSpaces(s);
    var j := TrailingSpaces(s);
    if i + j >= |s| then "" else s[i..|s| - j]
  }

  /** A text strips to nothing exactly when it is all whitespace. */
  lemma StripEmptyIff(s: string)
    ensures Strip(s) == "" <==> forall k :: 0 <= k < |s| ==> IsSpace(s[k])
  {
    var r := Strip(s);
    if r != "" {
      assert r[0] == s[LeadingSpaces(s)];
    }
  }

  /** s with every character satisfying the filter removed. */
  function RemoveChars(s: string, drop: char -> bool): (r: string)
    ensures |r| <= |s|
    ensures forall i :: 0 <= i < |r| ==> !drop(r[i]) && r[i] in s
    ensures forall c :: c in s && !drop(c) ==> c in r
  {
    if |s| == 0 then "" else
    var rest := RemoveChars(s[1..], drop);
    assert forall c :: c in s[1..] ==> c in s;
    if drop(s[0]) then rest else [s[0]] + rest
  }

  lemma {:induction false} RemoveCharsAppend(a: string, b: string, drop: char -> bool)
    ensures RemoveChars(a + b, drop) == RemoveChars(a, drop) + RemoveChars(b, drop)
  {
    if |a| == 0 {
      assert a + b == b;
    } else {
      assert (a + b)[1..] == a[1..] + b;
      RemoveCharsAppend(a[1..], b, drop);
    }
  }

  /** Inserting a dropped character anywhere leaves the filtered text unchanged. */
  lemma RemoveCharsIgnores(a: string, c: char, b: string, drop: char -> bool)
    requires drop(c)
    ensures RemoveChars(a + [c] + b, drop) == RemoveChars(a + b, drop)
  {
    var ac := a + [c];
    RemoveCharsAppend(ac, b, drop);
    RemoveCharsAppend(a, [c], drop);
    RemoveCharsAppend(a, b, drop);
    assert [c][1..] == [];
    assert RemoveChars([c], drop) == RemoveChars([], drop) == "";
    assert RemoveChars(ac, drop) == RemoveChars(a, drop);
  }

  /** Python's str.lower() on one character, for the ASCII letters. */
  function LowerChar(c: char): char {
    if 'A' <= c <= 'Z' then (c as int + 32) as char else c
  }

  /** str.lower() */
  function Lower(s: string): (r: string)
    ensures |r| == |s|
    ensures forall i :: 0 <= i < |s| ==> !('A' <= r[i] <= 'Z')
    ensures forall i :: 0 <= i < |s| ==> LowerChar(r[i]) == LowerChar(s[i])
  {
    seq(|s|, i requires 0 <= i < |s| => LowerChar(s[i]))
  }

  /** The stock-item key: spaces removed (other whitespace kept), lower-cased. */
  function SpaceFreeLower(s: string): string {
    Lower(RemoveChars(s, c => c == ' '))
  }

  /** The order-name key `re.sub(r'\s+', '', s).lower()`: all whitespace removed, lower-cased. */
  function NormalizeName(s: string): (r: string)
    ensures forall i :: 0 <= i < |r| ==> !IsSpace(r[i])
  {
    var t := RemoveChars(s, IsSpace);
    assert forall i :: 0 <= i < |t| ==> !IsSpace(LowerChar(t[i]));
    Lower(t)
  }

  /** Names that differ only in one whitespace character normalise alike. */
  lemma NormalizeIgnoresSpace(a: string, c: char, b: string)
    requires IsSpace(c)
    ensures NormalizeName(a + [c] + b) == NormalizeName(a + b)
  {
    RemoveCharsIgnores(a, c, b, IsSpace);
  }

  /** Lower-casing is idempotent. */
  lemma LowerTwice(s: string)
    ensures Lower(Lower(s)) == Lower(s)
  {
    assert forall i :: 0 <= i < |s| ==> Lower(Lower(s))[i] == Lower(s)[i];
  }

  /** Lower-casing maps spaces to spaces and nothing else to a space, so
      removing characters by a case-blind test commutes with it. */
  lemma {:induction false} RemoveCharsLower(s: string, drop: char -> bool)
    requires forall c :: drop(LowerChar(c)) == drop(c)
    ensures RemoveChars(Lower(s), drop) == Lower(RemoveChars(s, drop))
  {
    if |s| > 0 {
      assert Lower(s)[1..] == Lower(s[1..]);
      RemoveCharsLower(s[1..], drop);
      var rest := RemoveChars(s[1..], drop);
      if !drop(s[0]) {
        assert Lower([s[0]] + rest) == [LowerChar(s[0])] + Lower(rest);
      }
    }
  }

  /** Names that differ only in ASCII letter case normalise alike. */
  lemma NormalizeIgnoresCase(s: string)
    ensures NormalizeName(Lower(s)) == NormalizeName(s)
  {
    RemoveCharsLower(s, IsSpace);
    LowerTwice(RemoveChars(s, IsSpace));
  }

  /** Item names that differ only in ASCII letter case share a key. */
  lemma SpaceFreeIgnoresCase(s: string)
    ensures SpaceFreeLower(Lower(s)) == SpaceFreeLower(s)
  {
    RemoveCharsLower(s, c => c == ' ');
    LowerTwice(RemoveChars(s, c => c == ' '));
  }

  /** Item names that differ only in one ' ' share a key. */
  lemma SpaceFreeIgnoresSpace(a: string, b: string)
    ensures SpaceFreeLower(a + " " + b) == SpaceFreeLower(a + b)
  {
    RemoveCharsIgnores(a, ' ', b, c => c == ' ');
  }

  /** Any other whitespace character, a tab say, stays in the item key but
      not in the order-name key: the two keys tell such names apart
      differently. */
  lemma {:induction false} SpaceFreeKeepsOtherSpace(a: string, c: char, b: string)
    requires IsSpace(c) && c != ' '
    ensures |SpaceFreeLower(a + [c] + b)| == |SpaceFreeLower(a + b)| + 1
    ensures SpaceFreeLower(a + [c] + b) != SpaceFreeLower(a + b)
    ensures NormalizeName(a + [c] + b) == NormalizeName(a + b)
  {
    var drop := (x: char) => x == ' ';
    RemoveCharsAppend(a + [c], b, drop);
    RemoveCharsAppend(a, [c], drop);
    RemoveCharsAppend(a, b, drop);
    assert [c][1..] == [];
    assert RemoveChars([c], drop) == [c];
    NormalizeIgnoresSpace(a, c, b);
  }

  /** xml.sax.saxutils.escape: `&`, `<` and `>` become entity references. */
  function EscapeChar(c: char): string {
    if c == '&' then "&amp;" else if c == '<' then "&lt;" else if c == '>' then "&gt;" else [c]
  }

  function Escape(s: string): (r: string)
    ensures |r| >= |s|
    ensures |r| == 0 <==> |s| == 0
    ensures forall i :: 0 <= i < |r| ==> r[i] != '<' && r[i] != '>'
  {
    if |s| == 0 then "" else EscapeChar(s[0]) + Escape(s[1..])
  }

  /** The XML parser's reading of the three entity references. */
  function Unescape(s: string): string {
    if |s| == 0 then ""
    else if |s| >= 5 && s[..5] == "&amp;" then "&" + Unescape(s[5..])
    else if |s| >= 4 && s[..4] == "&lt;" then "<" + Unescape(s[4..])
    else if |s| >= 4 && s[..4] == "&gt;" then ">" + Unescape(s[4..])
    else [s[0]] + Unescape(s[1..])
  }

  /** Reading an escaped value back gives the original text. */
  lemma {:induction false} EscapeRoundTrip(s: string)
    ensures Unescape(Escape(s)) == s
  {
    if |s| == 0 {
      assert Escape(s) == "";
    } else {
      var rest := Escape(s[1..]);
      assert Escape(s) == EscapeChar(s[0]) + rest;
      UnescapeChar(s[0], rest);
      EscapeRoundTrip(s[1..]);
      assert s == [s[0]] + s[1..];
    }
  }

  /** One escaped character reads back as itself, whatever follows it. */
  lemma UnescapeChar(c: char, rest: string)
    ensures Unescape(EscapeChar(c) + rest) == [c] + Unescape(rest)
  {
    var x := EscapeChar(c) + rest;
    if c == '&' {
      assert x[..5] == "&amp;" && x[5..] == rest;
    } else if c == '<' {
      assert |x| >= 5 ==> x[..5][1] == 'l';
      assert x[..4] == "&lt;" && x[4..] == rest;
    } else if c == '>' {
      assert |x| >= 5 ==> x[..5][1] == 'g';
      assert x[..4][1] == 'g';
      assert x[..4] == "&gt;" && x[4..] == rest;
    } else {
      UnescapePlainHead(c, rest);
    }
  }

  /** A character other than `&` starts no entity reference. */
  lemma UnescapePlainHead(c: char, rest: string)
    requires c != '&'
    ensures Unescape([c] + rest) == [c] + Unescape(rest)
  {
    var x := [c] + rest;
    assert x[0] == c && x[1..] == rest;
    assert |x| >= 5 ==> x[..5][0] == c;
    assert |x| >= 4 ==> x[..4][0] == c;
  }

  /** Text without the three special characters is left as it is. */
  lemma {:induction false} EscapePlain(s: string)
    requires forall i :: 0 <= i < |s| ==> s[i] != '&' && s[i] != '<' && s[i] != '>'
    ensures Escape(s) == s
  {
    if |s| > 0 {
      EscapePlain(s[1..]);
      assert s == [s[0]] + s[1..];
    }
  }

  /** Python's s.split(sep) for a one-character separator. */
  function Split(s: string, sep: char): (r: seq<string>)
    ensures |r| >= 1
    ensures forall k :: 0 <= k < |r| ==> sep !in r[k]
  {
    if |s| == 0 then [""] else
    var rest := Split(s[1..], sep);
    if s[0] == sep then [""] + rest else [[s[0]] + rest[0]] + rest[1..]
  }

  /** sep.join(parts) */
  function Join(parts: seq<string>, sep: char): string {
    if |parts| == 0 then "" else if |parts| == 1 then parts[0] else parts[0] + [sep] + Join(parts[1..], sep)
  }

  function Count(s: string, c: char): nat {
    if |s| == 0 then 0 else (if s[0] == c then 1 else 0) + Count(s[1..], c)
  }

  lemma {:induction false} CountAppend(a: string, b: string, c: char)
    ensures Count(a + b, c) == Count(a, c) + Count(b, c)
  {
    if |a| == 0 {
      assert a + b == b;
    } else {
      assert (a + b)[1..] == a[1..] + b;
      CountAppend(a[1..], b, c);
    }
  }

  lemma {:induction false} CountAbsent(s: string, c: char)
    requires c !in s
    ensures Count(s, c) == 0
  {
    if |s| > 0 {
      CountAbsent(s[1..], c);
    }
  }

  /** Escaping neither adds nor removes a dash. */
  lemma {:induction false} EscapeKeepsDashes(s: string)
    ensures Count(Escape(s), '-') == Count(s, '-')
  {
    if |s| > 0 {
      EscapeKeepsDashes(s[1..]);
      var e := EscapeChar(s[0]);
      CountAppend(e, Escape(s[1..]), '-');
      if s[0] in "&<>" {
        assert '-' !in e;
        CountAbsent(e, '-');
      }
    }
  }

  /** Splitting yields one more part than there are separators. */
  lemma {:induction false} SplitLength(s: string, sep: char)
    ensures |Split(s, sep)| == Count(s, sep) + 1
  {
    if |s| > 0 { SplitLength(s[1..], sep); }
  }

  /** Joining the parts of a split restores the text. */
  lemma {:induction false} JoinSplit(s: string, sep: char)
    ensures Join(Split(s, sep), sep) == s
  {
    if |s| > 0 {
      var rest := Split(s[1..], sep);
      JoinSplit(s[1..], sep);
      if s[0] == sep {
        assert ([""] + rest)[1..] == rest;
      } else {
        var r := [[s[0]] + rest[0]] + rest[1..];
        assert r[1..] == rest[1..];
        if |rest| > 1 {
          assert Join(rest, sep) == rest[0] + [sep] + Join(rest[1..], sep);
        }
      }
      assert s == [s[0]] + s[1..];
    }
  }

  lemma {:induction false} SplitPrepend(c: char, s: string, sep: char)
    requires c != sep
    ensures Split([c] + s, sep) == [[c] + Split(s, sep)[0]] + Split(s, sep)[1..]
  {
    assert ([c] + s)[1..] == s;
  }

  /** Splitting a text that contains no separator gives it back whole. */
  lemma {:induction false} SplitNoSep(s: string, sep: char)
    requires sep !in s
    ensures Split(s, sep) == [s]
  {
    if |s| > 0 {
      SplitNoSep(s[1..], sep);
      assert s == [s[0]] + s[1..];
    }
  }

  /** Splitting `a + sep + b` where `a` has no separator puts `a` first. */
  lemma {:induction false} SplitAt(a: string, b: string, sep: char)
    requires sep !in a
    ensures Split(a + [sep] + b, sep) == [a] + Split(b, sep)
  {
    if |a| == 0 {
      assert a + [sep] + b == [sep] + b;
      assert ([sep] + b)[1..] == b;
    } else {
      assert (a + [sep] + b)[1..] == a[1..] + [sep] + b;
      SplitAt(a[1..], b, sep);
      assert a == [a[0]] + a[1..];
    }
  }

  /** Splitting the join of separator-free parts gives the parts back. */
  lemma {:induction false} SplitJoin(parts: seq<string>, sep: char)
    requires |parts| >= 1
    requires forall k :: 0 <= k < |parts| ==> sep !in parts[k]
    ensures Split(Join(parts, sep), sep) == parts
  {
    if |parts| == 1 {
      SplitNoSep(parts[0], sep);
    } else {
      SplitJoin(parts[1..], sep);
      SplitAt(parts[0], Join(parts[1..], sep), sep);
      assert parts == [parts[0]] + parts[1..];
    }
  }

  predicate IsDigit(c: char) { '0' <= c <= '9' }

  function DigitChar(n: nat): char
    requires n < 10
  {
    ('0' as int + n) as char
  }

  function DigitValue(c: char): nat
    requires IsDigit(c)
  {
    c as int - '0' as int
  }

  predicate AllDigits(s: string) { forall i :: 0 <= i < |s| ==> IsDigit(s[i]) }

  /** The value of a run of decimal digits. */
  function DigitsValue(s: string): nat
    requires AllDigits(s)
  {
    if |s| == 0 then 0 else 10 * DigitsValue(s[..|s| - 1]) + DigitValue(s[|s| - 1])
  }

  /** Python's str(n) for a non-negative integer. */
  function NatToString(n: nat): (r: string)
    ensures |r| >= 1 && AllDigits(r)
    ensures |r| > 1 ==> r[0] != '0'
  {
    if n < 10 then [DigitChar(n)] else NatToString(n / 10) + [DigitChar(n % 10)]
  }

  /** int(s) for a text of decimal digits. */
  function ParseNat(s: string): (r: Option<nat>)
    ensures r.Some? <==> |s| > 0 && AllDigits(s)
  {
    if |s| > 0 && AllDigits(s) then Some(DigitsValue(s)) else None
  }

  /** Rendering a natural number and reading it back gives the number. */
  lemma {:induction false} NatRoundTrip(n: nat)
    ensures ParseNat(NatToString(n)) == Some(n)
  {
    var s := NatToString(n);
    if n >= 10 {
      NatRoundTrip(n / 10);
      assert s[..|s| - 1] == NatToString(n / 10);
      assert DigitsValue(s[..|s| - 1]) == n / 10;
      assert DigitValue(s[|s| - 1]) == n % 10;
    } else {
      assert s[..|s| - 1] == [];
      assert DigitsValue(s) == 10 * DigitsValue([]) + DigitValue(DigitChar(n));
    }
  }

  /** Distinct numbers render as distinct texts. */
  lemma NatToStringInjective(m: nat, n: nat)
    requires NatToString(m) == NatToString(n)
    ensures m == n
  {
    NatRoundTrip(m);
    NatRoundTrip(n);
  }

  /** Python's str(i) for an integer. */
  function IntToString(i: int): (r: string)
    ensures |r| >= 1
    ensures i < 0 <==> r[0] == '-'
  {
    if i < 0 then "-" + NatToString(-i) else NatToString(i)
  }

  /** int(s) for an optionally signed decimal text. */
  function ParseInt(s: string): (r: Option<int>)
    ensures r.Some? && |s| > 0 && s[0] == '-' ==> r.value <= 0
    ensures r.Some? && (|s| == 0 || s[0] != '-') ==> r.value >= 0
  {
    if |s| > 0 && s[0] == '-' then
      match ParseNat(s[1..]) case Some(n) => Some(0 - n as int) case None => None
    else
      match ParseNat(s) case Some(n) => Some(n) case None => None
  }

  /** Rendering an integer and reading it back gives the integer. */
  lemma IntRoundTrip(i: int)
    ensures ParseInt(IntToString(i)) == Some(i)
  {
    if i < 0 {
      NatRoundTrip(-i);
      assert IntToString(i)[1..] == NatToString(-i);
    } else {
      NatRoundTrip(i);
    }
  }
}
