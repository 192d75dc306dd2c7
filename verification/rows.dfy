/** One row of the uploaded table, as pandas hands it to a converter's
    row loop: column name to cell text. A column the table does not have
    is absent from the map; an empty cell is the text "nan" (pandas' NaN
    rendered by str()) unless the converter called fillna(""), in which
    case it is "". */
module Rows {
  import opened Outcome
  import opened Text

  type Row = map<string, string>

  /** row.get(column, default) */
  function Cell(row: Row, column: string, default: string): (r: string)
    ensures column in row ==> r == row[column]
    ensures column !in row ==> r == default
  {
    if column in row then row[column] else default
  }

  /** row[column], which raises KeyError when the column is absent. */
  function Need(row: Row, column: string): (r: Result<string>)
    ensures r.Ok? <==> column in row
    ensures r.Ok? ==> r.value == row[column]
  {
    if column in row then Ok(row[column]) else Err(KeyError(column))
  }

  /** Whether pandas hands the cell over as a number rather than a str:
      an optional minus sign, then digits with at most one inner decimal
      point ("12", "-3", "12.0"). */
  predicate NumberCell(s: string) {
    var body := Unsigned(s);
    && |body| > 0 && body[0] != '.' && body[|body| - 1] != '.'
    && (forall i :: 0 <= i < |body| ==> IsDigit(body[i]) || body[i] == '.')
    && Count(body, '.') <= 1
  }

  /** The text after a leading minus sign. */
  function Unsigned(s: string): string {
    if |s| > 0 && s[0] == '-' then s[1..] else s
  }

  /** Python's truth value of a cell, as `if cell:` reads it: a number is
      true unless it is zero, a str unless it is empty. NaN, a float, is
      true. */
  predicate PythonTruth(s: string) {
    if NumberCell(s) then !ZerosOnly(Unsigned(s)) else s != ""
  }

  /** Every character is a zero or a decimal point. */
  predicate ZerosOnly(t: string) {
    forall k :: 0 <= k < |t| ==> t[k] == '0' || t[k] == '.'
  }

  /** The same truth value, read in one pass: a non-empty cell that does
      not spell zero. `TruthyIsPythonTruth` shows the two agree. */
  predicate Truthy(s: string) {
    s != "" && !ZeroAt(s, 0, 0)
  }

  /** Reads s[i..] as the end of a zero spelt as pandas prints it: an
      optional minus sign, then zeros with at most one decimal point that
      has a zero on each side. `state` is 0 before the first zero, 1
      among the zeros before the point, 2 right after the point and 3
      among the zeros after it. */
  predicate ZeroAt(s: string, i: nat, state: nat)
    decreases |s| - i
  {
    if i >= |s| then state == 1 || state == 3
    else if s[i] == '-' && i == 0 then ZeroAt(s, 1, 0)
    else if s[i] == '0' then ZeroAt(s, i + 1, if state <= 1 then 1 else 3)
    else if s[i] == '.' && state == 1 then ZeroAt(s, i + 1, 2)
    else false
  }

  /** After the point and at least one zero: only zeros may follow. */
  lemma {:induction false} ZeroAtAfterPoint(s: string, i: nat)
    requires 0 < i <= |s|
    ensures ZeroAt(s, i, 3) <==> forall k :: i <= k < |s| ==> s[k] == '0'
    decreases |s| - i
  {
    if i < |s| {
      ZeroAtAfterPoint(s, i + 1);
    }
  }

  /** Among the zeros before the point: the rest holds zeros and at most
      one point, and does not end with it. */
  lemma {:induction false} ZeroAtBeforePoint(s: string, i: nat)
    requires 0 < i <= |s|
    ensures ZeroAt(s, i, 1) <==> ZerosOnly(s[i..]) && Count(s[i..], '.') <= 1 && (i == |s| || s[|s| - 1] != '.')
    decreases |s| - i
  {
    if i < |s| {
      var t := s[i..];
      assert t[1..] == s[i + 1..];
      if s[i] == '0' {
        ZeroAtBeforePoint(s, i + 1);
        assert ZerosOnly(t) <==> ZerosOnly(t[1..]) by {
          if ZerosOnly(t[1..]) {
            forall k | 0 <= k < |t| ensures t[k] == '0' || t[k] == '.' {
              if k > 0 { assert t[k] == t[1..][k - 1]; }
            }
          }
        }
      } else if s[i] == '.' {
        ZeroAtAfterPoint(s, i + 1);
        if i + 1 < |s| && forall k :: i + 1 <= k < |s| ==> s[k] == '0' {
          assert '.' !in t[1..] by {
            forall k | 0 <= k < |t[1..]| ensures t[1..][k] != '.' { assert t[1..][k] == s[i + 1 + k]; }
          }
          CountAbsent(t[1..], '.');
          forall k | 0 <= k < |t| ensures t[k] == '0' || t[k] == '.' {
            if k > 0 { assert t[k] == s[i + k]; }
          }
        } else if ZerosOnly(t) && Count(t, '.') <= 1 && s[|s| - 1] != '.' {
          assert Count(t[1..], '.') == 0;
          assert i + 1 < |s|;
          forall k | i + 1 <= k < |s| ensures s[k] == '0' {
            assert t[k - i] == s[k];
            if s[k] == '.' {
              assert t[1..][k - i - 1] == '.';
              CountPresent(t[1..], '.', k - i - 1);
            }
          }
          assert false;
        }
      } else {
        assert !ZerosOnly(t) by { assert t[0] == s[i]; }
      }
    }
  }

  /** A character that occurs is counted. */
  lemma {:induction false} CountPresent(t: string, c: char, k: nat)
    requires k < |t| && t[k] == c
    ensures Count(t, c) > 0
  {
    if k > 0 {
      CountPresent(t[1..], c, k - 1);
    }
  }

  /** The one-pass reading of zero is the number-cell test plus "all
      zeros", on the text after the sign. */
  lemma ZeroAtIsZeroNumber(s: string)
    ensures ZeroAt(s, 0, 0) <==> NumberCell(s) && ZerosOnly(Unsigned(s))
  {
    if |s| > 0 {
      var o := if s[0] == '-' then 1 else 0;
      var b := Unsigned(s);
      assert b == s[o..];
      assert ZeroAt(s, 0, 0) == ZeroAt(s, o, 0);
      if o < |s| {
        assert b[1..] == s[o + 1..];
        ZeroAtBeforePoint(s, o + 1);
        assert ZeroAt(s, o, 0) <==> s[o] == '0' && ZeroAt(s, o + 1, 1);
        if s[o] == '0' {
          assert Count(b, '.') == Count(b[1..], '.');
          assert ZerosOnly(b) <==> ZerosOnly(b[1..]) by {
            if ZerosOnly(b[1..]) {
              forall k | 0 <= k < |b| ensures b[k] == '0' || b[k] == '.' {
                if k > 0 { assert b[k] == b[1..][k - 1]; }
              }
            }
          }
          if ZeroAt(s, 0, 0) {
            forall k | 0 <= k < |b| ensures IsDigit(b[k]) || b[k] == '.' {
              assert b[k] == '0' || b[k] == '.';
            }
          }
        } else {
          assert !(NumberCell(s) && ZerosOnly(b)) by { assert b[0] == s[o]; }
        }
      }
    }
  }

  /** The one-pass truth value is Python's. */
  lemma TruthyIsPythonTruth(s: string)
    ensures Truthy(s) <==> PythonTruth(s)
  {
    ZeroAtIsZeroNumber(s);
  }

  /** A cell int() reads is one pandas hands over as a number: an
      integer is a number cell without a decimal point. */
  lemma IntCellIsNumber(s: string)
    requires ParseInt(s).Some?
    ensures NumberCell(s) && '.' !in Unsigned(s)
  {
    var body := Unsigned(s);
    assert ParseNat(body).Some?;
    assert '.' !in body by {
      forall i | 0 <= i < |body| ensures body[i] != '.' {
        assert IsDigit(body[i]);
      }
    }
    CountAbsent(body, '.');
  }

  /** A text with a dash after its first character, a date cell among
      them, is a non-empty str. */
  lemma DashedIsText(s: string)
    requires Count(s, '-') == 2
    ensures !NumberCell(s) && Truthy(s)
  {
    var body := Unsigned(s);
    if |s| > 0 && s[0] == '-' {
      assert s == [s[0]] + s[1..];
      CountAppend([s[0]], s[1..], '-');
    }
    assert Count(body, '-') > 0;
    if '-' !in body {
      CountAbsent(body, '-');
    }
    var k :| 0 <= k < |body| && body[k] == '-';
    assert !(IsDigit(body[k]) || body[k] == '.');
    TruthyIsPythonTruth(s);
  }

  /** `saxutils.escape(row.get(column, default))` without `str()`: escape
      calls str.replace, so a number cell raises AttributeError. */
  function EscapeCell(row: Row, column: string, default: string): (r: Result<string>)
    ensures r.Ok? <==> column !in row || !NumberCell(row[column])
    ensures r.Ok? ==> Unescape(r.value) == Cell(row, column, default)
    ensures r.Err? ==> r.error == AttributeError(row[column])
  {
    var text := Cell(row, column, default);
    if column in row && NumberCell(text) then Err(AttributeError(text))
    else EscapeRoundTrip(text); Ok(Escape(text))
  }
}
