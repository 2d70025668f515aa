/**
 * The few Python string built-ins the version code relies on: `str.split` with a
 * one-character separator, `int()` on a decimal literal and `str()` of an int.
 * `int()` is modelled on ASCII text only: an optional sign followed by one or
 * more ASCII digits.
 */
module PyStr {
  import opened Wrappers

  /** `sep.join(parts)`: the inverse of Split. */
  function Join(parts: seq<string>, sep: char): string
    requires |parts| >= 1
  {
    if |parts| == 1 then parts[0] else parts[0] + [sep] + Join(parts[1..], sep)
  }

  /**
   * `s.split(sep)`: the maximal pieces of `s` between separators, so there is
   * always one more piece than there are separators and pieces may be empty.
   */
  function Split(s: string, sep: char): (parts: seq<string>)
    ensures |parts| >= 1
    ensures forall i :: 0 <= i < |parts| ==> sep !in parts[i]
    ensures Join(parts, sep) == s
    decreases |s|
  {
    if |s| == 0 then [""]
    else
      var rest := Split(s[1..], sep);
      if s[0] == sep then
        [""] + rest
      else
        var parts := [[s[0]] + rest[0]] + rest[1..];
        assert |rest| > 1 ==> Join(parts, sep) == [s[0]] + rest[0] + [sep] + Join(rest[1..], sep);
        parts
  }

  /** A separator-free string splits into itself. */
  lemma {:induction false} SplitNoSeparator(a: string, sep: char)
    requires sep !in a
    ensures Split(a, sep) == [a]
    decreases |a|
  {
    if |a| > 0 {
      assert sep !in a[1..] by {
        forall i | 0 <= i < |a[1..]| ensures a[1..][i] != sep { assert a[1..][i] == a[i + 1]; }
      }
      SplitNoSeparator(a[1..], sep);
    }
  }

  /** Splitting at the first separator peels off the first piece. */
  lemma {:induction false} SplitFirstPiece(a: string, sep: char, b: string)
    requires sep !in a
    ensures Split(a + [sep] + b, sep) == [a] + Split(b, sep)
    decreases |a|
  {
    var s := a + [sep] + b;
    if |a| == 0 {
      assert s[0] == sep && s[1..] == b;
    } else {
      assert s[0] == a[0] && s[1..] == a[1..] + [sep] + b;
      assert sep !in a[1..] by {
        forall i | 0 <= i < |a[1..]| ensures a[1..][i] != sep { assert a[1..][i] == a[i + 1]; }
      }
      SplitFirstPiece(a[1..], sep, b);
      assert [a[0]] + a[1..] == a;
    }
  }

  /** Split undoes Join whenever no piece contains the separator. */
  lemma {:induction false} SplitJoin(parts: seq<string>, sep: char)
    requires |parts| >= 1
    requires forall i :: 0 <= i < |parts| ==> sep !in parts[i]
    ensures Split(Join(parts, sep), sep) == parts
    decreases |parts|
  {
    if |parts| == 1 {
      SplitNoSeparator(parts[0], sep);
    } else {
      SplitJoin(parts[1..], sep);
      SplitFirstPiece(parts[0], sep, Join(parts[1..], sep));
      assert [parts[0]] + parts[1..] == parts;
    }
  }

  /** Three pieces joined: the first, a separator, the second, a separator, the third. */
  lemma JoinThree(parts: seq<string>, sep: char)
    requires |parts| == 3
    ensures Join(parts, sep) == parts[0] + [sep] + parts[1] + [sep] + parts[2]
  {
    assert parts[1..][1..] == [parts[2]];
    assert Join(parts[1..], sep) == parts[1] + [sep] + parts[2];
  }

  /** A dotted triple of dot-free pieces splits back into the pieces. */
  lemma SplitThree(a: string, b: string, c: string)
    requires '.' !in a && '.' !in b && '.' !in c
    ensures Split(a + "." + b + "." + c, '.') == [a, b, c]
  {
    var parts := [a, b, c];
    assert parts[1..] == [b, c] && parts[1..][1..] == [c];
    assert Join([c], '.') == c;
    assert Join([b, c], '.') == b + "." + c;
    assert Join(parts, '.') == a + "." + b + "." + c;
    SplitJoin(parts, '.');
  }

  predicate IsDigit(c: char) { '0' <= c <= '9' }

  /** One or more ASCII digits: what `\d+` matches on ASCII text. */
  predicate IsDigits(s: string) {
    |s| > 0 && forall i :: 0 <= i < |s| ==> IsDigit(s[i])
  }

  function DigitValue(c: char): nat
    requires IsDigit(c)
  {
    (c as int) - ('0' as int)
  }

  /** The base-10 value of a digit string, most significant digit first. */
  function DigitsValue(s: string): nat
    requires forall i :: 0 <= i < |s| ==> IsDigit(s[i])
    decreases |s|
  {
    if |s| == 0 then 0 else 10 * DigitsValue(s[..|s| - 1]) + DigitValue(s[|s| - 1])
  }

  function DigitChar(d: nat): (c: char)
    requires d < 10
    ensures IsDigit(c) && DigitValue(c) == d
  {
    ('0' as int + d) as char
  }

  /** `str(n)` for a non-negative `n`: the shortest decimal numeral. */
  function NatToString(n: nat): (s: string)
    ensures IsDigits(s)
    ensures n > 0 ==> s[0] != '0'
    decreases n
  {
    if n < 10 then [DigitChar(n)] else NatToString(n / 10) + [DigitChar(n % 10)]
  }

  lemma {:induction false} NatToStringValue(n: nat)
    ensures DigitsValue(NatToString(n)) == n
    decreases n
  {
    if n >= 10 {
      NatToStringValue(n / 10);
      var s := NatToString(n);
      assert s[..|s| - 1] == NatToString(n / 10);
    }
  }

  /** `str(n)` for any int. */
  function IntToString(n: int): (r: string)
    ensures |r| > 0 && (r[0] == '-' <==> n < 0)
  {
    if n < 0 then "-" + NatToString(-n) else NatToString(n)
  }

  /**
   * `int(s)`: Some value when `s` is an optional sign followed by ASCII digits,
   * None where Python raises ValueError.
   */
  function ParseInt(s: string): (r: Option<int>)
    ensures r.Some? ==> |s| > 0
    ensures IsDigits(s) ==> r == Some(DigitsValue(s))
    ensures r.Some? && r.value < 0 ==> s[0] == '-'
  {
    if |s| > 0 && s[0] == '-' && IsDigits(s[1..]) then Some(-(DigitsValue(s[1..]) as int))
    else if |s| > 0 && s[0] == '+' && IsDigits(s[1..]) then Some(DigitsValue(s[1..]))
    else if IsDigits(s) then Some(DigitsValue(s))
    else None
  }

  /** Parsing what `str` printed gives the number back. */
  lemma ParseIntToString(n: int)
    ensures ParseInt(IntToString(n)) == Some(n)
  {
    if n < 0 {
      var d := NatToString(-n);
      NatToStringValue(-n);
      assert IntToString(n)[1..] == d;
    } else {
      NatToStringValue(n);
    }
  }

  /** A printed int is made of ASCII digits and at most a leading minus sign. */
  lemma IntToStringChars(n: int)
    ensures forall i :: 0 <= i < |IntToString(n)| ==> IsDigit(IntToString(n)[i]) || IntToString(n)[i] == '-'
  {
    if n < 0 {
      var d := NatToString(-n);
      assert forall i :: 1 <= i < |IntToString(n)| ==> IntToString(n)[i] == d[i - 1];
    }
  }

  /** A printed int never contains the version separator. */
  lemma IntToStringHasNoDot(n: int)
    ensures '.' !in IntToString(n)
  {
    IntToStringChars(n);
  }
}
