/**
 * Dotted-version comparison of the `VersionManager` class: a version string is
 * split on '.', every piece is read with `int()`, and the resulting tuples are
 * compared the way Python compares tuples.
 */
module Versions {
  import opened Wrappers
  import opened PyStr

  /** The ValueError `int()` raises, with the piece it could not read. */
  datatype VersionError = ValueError(component: string)

  /** `map(int, parts)` collected into a tuple; fails on the first non-integer piece. */
  function ParseComponents(parts: seq<string>): (r: Result<seq<int>, VersionError>)
    ensures r.Ok? ==> |r.value| == |parts|
    decreases |parts|
  {
    if |parts| == 0 then Ok([])
    else
      match ParseInt(parts[0])
      case None => Err(ValueError(parts[0]))
      case Some(n) =>
        match ParseComponents(parts[1..])
        case Err(e) => Err(e)
        case Ok(ns) => Ok([n] + ns)
  }

  /** Parsing succeeds exactly when every piece is an integer, and then reads each piece in place. */
  lemma {:induction false} ParseComponentsSpec(parts: seq<string>)
    ensures ParseComponents(parts).Ok? <==> forall i :: 0 <= i < |parts| ==> ParseInt(parts[i]).Some?
    ensures ParseComponents(parts).Ok? ==>
      forall i :: 0 <= i < |parts| ==> ParseInt(parts[i]) == Some(ParseComponents(parts).value[i])
    ensures ParseComponents(parts).Err? ==> ParseInt(ParseComponents(parts).error.component).None?
    ensures ParseComponents(parts).Err? ==>
      exists i :: 0 <= i < |parts| && ParseComponents(parts).error.component == parts[i] &&
        ParseInt(parts[i]).None? && forall j :: 0 <= j < i ==> ParseInt(parts[j]).Some?
    decreases |parts|
  {
    if |parts| > 0 {
      ParseComponentsSpec(parts[1..]);
      assert forall i :: 1 <= i < |parts| ==> parts[i] == parts[1..][i - 1];
      if ParseInt(parts[0]).Some? && ParseComponents(parts[1..]).Err? {
        var k :| 0 <= k < |parts[1..]| && ParseComponents(parts[1..]).error.component == parts[1..][k] &&
          ParseInt(parts[1..][k]).None? && forall j :: 0 <= j < k ==> ParseInt(parts[1..][j]).Some?;
        assert parts[k + 1] == parts[1..][k];
        assert forall j :: 1 <= j < k + 1 ==> parts[j] == parts[1..][j - 1];
      }
    }
  }

  /** `version_tuple(v)`, the helper local to `compare_versions`. */
  function VersionTuple(v: string): (r: Result<seq<int>, VersionError>)
    ensures r.Ok? ==> |r.value| == |Split(v, '.')|
    ensures r.Err? ==> r.error.component in Split(v, '.') && ParseInt(r.error.component).None?
  {
    var parts := Split(v, '.');
    ParseComponentsSpec(parts);
    ParseComponents(parts)
  }

  /** Python's `<` on tuples of ints. */
  predicate TupleLess(a: seq<int>, b: seq<int>)
    ensures TupleLess(a, b) ==> a != b
    decreases |a|
  {
    if |a| == 0 then |b| > 0
    else if |b| == 0 then false
    else if a[0] != b[0] then a[0] < b[0]
    else TupleLess(a[1..], b[1..])
  }

  /** Lexicographic order spelled out: the first differing component decides, a proper prefix is smaller. */
  predicate LexLess(a: seq<int>, b: seq<int>) {
    || (exists k :: 0 <= k < |a| && k < |b| && a[..k] == b[..k] && a[k] < b[k])
    || (|a| < |b| && a == b[..|a|])
  }

  lemma TupleLessIsLexLess(a: seq<int>, b: seq<int>)
    ensures TupleLess(a, b) <==> LexLess(a, b)
  {
    if TupleLess(a, b) { TupleLessImpliesLexLess(a, b); }
    if LexLess(a, b) { LexLessImpliesTupleLess(a, b); }
  }

  lemma {:induction false} TupleLessImpliesLexLess(a: seq<int>, b: seq<int>)
    requires TupleLess(a, b)
    ensures LexLess(a, b)
    decreases |a|
  {
    if |a| == 0 {
      assert a == b[..0];
    } else if a[0] != b[0] {
      assert a[..0] == b[..0];
    } else {
      TupleLessImpliesLexLess(a[1..], b[1..]);
      LexLessCons(a, b);
    }
  }

  lemma {:induction false} LexLessImpliesTupleLess(a: seq<int>, b: seq<int>)
    requires LexLess(a, b)
    ensures TupleLess(a, b)
    decreases |a|
  {
    if |a| > 0 {
      LexLessHead(a, b);
      if a[0] == b[0] {
        LexLessUncons(a, b);
        LexLessImpliesTupleLess(a[1..], b[1..]);
      }
    }
  }

  /** Equal heads in front of ordered tails give ordered tuples. */
  lemma LexLessCons(a: seq<int>, b: seq<int>)
    requires |a| > 0 && |b| > 0 && a[0] == b[0] && LexLess(a[1..], b[1..])
    ensures LexLess(a, b)
  {
    if exists k :: 0 <= k < |a[1..]| && k < |b[1..]| && a[1..][..k] == b[1..][..k] && a[1..][k] < b[1..][k] {
      var k :| 0 <= k < |a[1..]| && k < |b[1..]| && a[1..][..k] == b[1..][..k] && a[1..][k] < b[1..][k];
      assert a[..k + 1] == [a[0]] + a[1..][..k];
      assert b[..k + 1] == [b[0]] + b[1..][..k];
      assert a[k + 1] == a[1..][k] && b[k + 1] == b[1..][k];
    } else {
      assert a == [a[0]] + a[1..];
      assert b[..|a|] == [b[0]] + b[1..][..|a[1..]|];
    }
  }

  /** The first components of ordered tuples are ordered. */
  lemma LexLessHead(a: seq<int>, b: seq<int>)
    requires |a| > 0 && LexLess(a, b)
    ensures |b| > 0 && a[0] <= b[0]
  {
    if exists k :: 0 <= k < |a| && k < |b| && a[..k] == b[..k] && a[k] < b[k] {
      var k :| 0 <= k < |a| && k < |b| && a[..k] == b[..k] && a[k] < b[k];
      if k > 0 { assert a[..k][0] == b[..k][0]; }
    } else {
      assert a[0] == b[..|a|][0];
    }
  }

  /** Ordered tuples with equal heads have ordered tails. */
  lemma LexLessUncons(a: seq<int>, b: seq<int>)
    requires |a| > 0 && |b| > 0 && a[0] == b[0] && LexLess(a, b)
    ensures LexLess(a[1..], b[1..])
  {
    if exists k :: 0 <= k < |a| && k < |b| && a[..k] == b[..k] && a[k] < b[k] {
      var k :| 0 <= k < |a| && k < |b| && a[..k] == b[..k] && a[k] < b[k];
      assert k != 0;
      assert a[1..][..k - 1] == a[..k][1..] && b[1..][..k - 1] == b[..k][1..];
      assert a[1..][k - 1] == a[k] && b[1..][k - 1] == b[k];
    } else {
      assert a[1..] == b[1..][..|a[1..]|] by {
        assert a[1..] == a[..|a|][1..] && b[1..][..|a[1..]|] == b[..|a|][1..];
      }
    }
  }

  lemma {:induction false} TupleLessIrreflexive(a: seq<int>)
    ensures !TupleLess(a, a)
    decreases |a|
  {
    if |a| > 0 { TupleLessIrreflexive(a[1..]); }
  }

  lemma {:induction false} TupleLessAsymmetric(a: seq<int>, b: seq<int>)
    requires TupleLess(a, b)
    ensures !TupleLess(b, a)
    decreases |a|
  {
    if |a| > 0 && |b| > 0 && a[0] == b[0] { TupleLessAsymmetric(a[1..], b[1..]); }
  }

  lemma {:induction false} TupleLessTransitive(a: seq<int>, b: seq<int>, c: seq<int>)
    requires TupleLess(a, b) && TupleLess(b, c)
    ensures TupleLess(a, c)
    decreases |a|
  {
    if |a| > 0 && a[0] == b[0] && b[0] == c[0] {
      TupleLessTransitive(a[1..], b[1..], c[1..]);
    }
  }

  /** Any two distinct tuples are ordered one way or the other. */
  lemma {:induction false} TupleLessTrichotomy(a: seq<int>, b: seq<int>)
    ensures a == b || TupleLess(a, b) || TupleLess(b, a)
    decreases |a|
  {
    if |a| > 0 && |b| > 0 && a[0] == b[0] {
      TupleLessTrichotomy(a[1..], b[1..]);
      if a[1..] == b[1..] {
        assert a == [a[0]] + a[1..] && b == [b[0]] + b[1..];
      }
    }
  }

  /** A proper prefix compares smaller (`(1, 0) < (1, 0, 0)`). */
  lemma {:induction false} TupleLessPrefix(a: seq<int>, u: seq<int>)
    requires |u| > 0
    ensures TupleLess(a, a + u)
    decreases |a|
  {
    if |a| > 0 {
      assert (a + u)[1..] == a[1..] + u;
      TupleLessPrefix(a[1..], u);
    }
  }

  /** `VersionManager.compare_versions`: -1, 0 or 1, or the ValueError of `int()`. */
  function CompareVersions(version1: string, version2: string): (r: Result<int, VersionError>)
    ensures r.Ok? <==> VersionTuple(version1).Ok? && VersionTuple(version2).Ok?
    ensures r.Ok? ==> r.value == -1 || r.value == 0 || r.value == 1
    ensures r.Ok? ==> (r.value == -1 <==> TupleLess(VersionTuple(version1).value, VersionTuple(version2).value))
    ensures r.Ok? ==> (r.value == 0 <==> VersionTuple(version1).value == VersionTuple(version2).value)
    ensures r.Ok? ==> (r.value == 1 <==> TupleLess(VersionTuple(version2).value, VersionTuple(version1).value))
  {
    match VersionTuple(version1)
    case Err(e) => Err(e)
    case Ok(t1) =>
      match VersionTuple(version2)
      case Err(e) => Err(e)
      case Ok(t2) =>
        TupleLessTrichotomy(t1, t2);
        TupleLessIrreflexive(t1);
        if TupleLess(t1, t2) then
          TupleLessAsymmetric(t1, t2);
          Ok(-1)
        else if TupleLess(t2, t1) then Ok(1)
        else Ok(0)
  }

  lemma CompareReflexive(v: string)
    requires VersionTuple(v).Ok?
    ensures CompareVersions(v, v) == Ok(0)
  {
  }

  /** Swapping the arguments negates the answer, and fails exactly when the original fails. */
  lemma CompareAntisymmetric(v1: string, v2: string)
    ensures CompareVersions(v1, v2).Ok? <==> CompareVersions(v2, v1).Ok?
    ensures CompareVersions(v1, v2).Ok? ==> CompareVersions(v2, v1).value == -CompareVersions(v1, v2).value
  {
  }

  lemma CompareTransitive(a: string, b: string, c: string)
    requires CompareVersions(a, b).Ok? && CompareVersions(b, c).Ok?
    requires CompareVersions(a, b).value <= 0 && CompareVersions(b, c).value <= 0
    ensures CompareVersions(a, c).Ok? && CompareVersions(a, c).value <= 0
    ensures CompareVersions(a, b).value < 0 || CompareVersions(b, c).value < 0 ==> CompareVersions(a, c).value < 0
  {
    var ta, tb, tc := VersionTuple(a).value, VersionTuple(b).value, VersionTuple(c).value;
    if TupleLess(ta, tb) && TupleLess(tb, tc) {
      TupleLessTransitive(ta, tb, tc);
    }
  }

  /** The first differing component decides; a proper prefix is the smaller version. */
  lemma CompareIsLexicographic(v1: string, v2: string)
    requires CompareVersions(v1, v2).Ok?
    ensures CompareVersions(v1, v2).value == -1 <==> LexLess(VersionTuple(v1).value, VersionTuple(v2).value)
  {
    TupleLessIsLexLess(VersionTuple(v1).value, VersionTuple(v2).value);
  }

  /** A version with an extra component compares larger than its prefix. */
  lemma CompareExtension(v: string, ext: string)
    requires VersionTuple(v).Ok? && VersionTuple(ext).Ok?
    ensures CompareVersions(v, v + "." + ext) == Ok(-1)
  {
    var pv, pe := Split(v, '.'), Split(ext, '.');
    var joined := pv + pe;
    assert Join(joined, '.') == v + "." + ext by { JoinAppend(pv, pe, '.'); }
    assert forall i :: 0 <= i < |joined| ==> '.' !in joined[i] by {
      forall i | 0 <= i < |joined| ensures '.' !in joined[i] {
        if i >= |pv| { assert joined[i] == pe[i - |pv|]; }
      }
    }
    SplitJoin(joined, '.');
    ParseComponentsAppend(pv, pe);
    TupleLessPrefix(VersionTuple(v).value, VersionTuple(ext).value);
  }

  lemma {:induction false} JoinAppend(a: seq<string>, b: seq<string>, sep: char)
    requires |a| >= 1 && |b| >= 1
    ensures Join(a + b, sep) == Join(a, sep) + [sep] + Join(b, sep)
    decreases |a|
  {
    if |a| > 1 {
      assert (a + b)[1..] == a[1..] + b;
      JoinAppend(a[1..], b, sep);
    }
  }

  lemma {:induction false} ParseComponentsAppend(a: seq<string>, b: seq<string>)
    requires ParseComponents(a).Ok? && ParseComponents(b).Ok?
    ensures ParseComponents(a + b) == Ok(ParseComponents(a).value + ParseComponents(b).value)
    decreases |a|
  {
    if |a| > 0 {
      assert (a + b)[1..] == a[1..] + b;
      assert (a + b)[0] == a[0];
      var n := ParseInt(a[0]).value;
      assert ParseComponents(a[1..]).Ok?;
      ParseComponentsAppend(a[1..], b);
      var ta, tb := ParseComponents(a[1..]).value, ParseComponents(b).value;
      assert ParseComponents(a) == Ok([n] + ta);
      assert ParseComponents(a + b) == Ok([n] + (ta + tb));
      assert [n] + (ta + tb) == ([n] + ta) + tb;
    } else {
      assert a + b == b;
      assert ParseComponents(a) == Ok([]);
      assert ParseComponents(a).value + ParseComponents(b).value == ParseComponents(b).value;
    }
  }

  /** Single components compare by numeric value, not by their text. */
  lemma CompareNumeric(x: int, y: int)
    ensures CompareVersions(IntToString(x), IntToString(y)) == Ok(if x < y then -1 else if x == y then 0 else 1)
  {
    VersionTupleOfInt(x);
    VersionTupleOfInt(y);
  }

  lemma VersionTupleOfInt(x: int)
    ensures VersionTuple(IntToString(x)) == Ok([x])
  {
    IntToStringHasNoDot(x);
    SplitNoSeparator(IntToString(x), '.');
    ParseIntToString(x);
    var parts := [IntToString(x)];
    assert parts[1..] == [];
    assert ParseComponents(parts[1..]) == Ok([]);
    assert ParseInt(parts[0]) == Some(x);
    assert ParseComponents(parts) == Ok([x] + []);
    assert [x] + [] == [x];
    assert Split(IntToString(x), '.') == parts;
    assert VersionTuple(IntToString(x)) == ParseComponents(parts);
  }

  /** `VersionManager.is_newer_version(version)` against the manager's `current_version`. */
  function IsNewerVersion(currentVersion: string, version: string): (r: Result<bool, VersionError>)
    ensures r.Ok? <==> CompareVersions(version, currentVersion).Ok?
    ensures r == Ok(true) <==> CompareVersions(version, currentVersion) == Ok(1)
  {
    match CompareVersions(version, currentVersion)
    case Err(e) => Err(e)
    case Ok(c) => Ok(c > 0)
  }

  /** Of two valid versions at most one is newer than the other, and none is newer than itself. */
  lemma IsNewerAsymmetric(a: string, b: string)
    requires IsNewerVersion(a, b) == Ok(true)
    ensures IsNewerVersion(b, a) == Ok(false)
  {
    CompareAntisymmetric(a, b);
  }

  /** A three-piece version splits into its three pieces. */
  lemma VersionTupleOfTriple(a: string, b: string, c: string)
    requires '.' !in a && '.' !in b && '.' !in c
    ensures VersionTuple(a + "." + b + "." + c) == ParseComponents([a, b, c])
  {
    SplitThree(a, b, c);
  }

  lemma ParseComponentsCons(p: string, rest: seq<string>)
    requires ParseInt(p).Some? && ParseComponents(rest).Ok?
    ensures ParseComponents([p] + rest) == Ok([ParseInt(p).value] + ParseComponents(rest).value)
  {
    var parts := [p] + rest;
    assert parts[0] == p && parts[1..] == rest;
  }

  lemma ParseTriple(a: string, b: string, c: string, x: int, y: int, z: int)
    requires ParseInt(a) == Some(x) && ParseInt(b) == Some(y) && ParseInt(c) == Some(z)
    ensures ParseComponents([a, b, c]) == Ok([x, y, z])
  {
    assert ParseComponents([]) == Ok([]);
    ParseComponentsCons(c, []);
    assert [c] + [] == [c] && [z] + [] == [z];
    ParseComponentsCons(b, [c]);
    assert [b] + [c] == [b, c] && [y] + [z] == [y, z];
    ParseComponentsCons(a, [b, c]);
    assert [a] + [b, c] == [a, b, c] && [x] + [y, z] == [x, y, z];
  }

  lemma TripleTuple(s: string, a: string, b: string, c: string, x: int, y: int, z: int)
    requires s == a + "." + b + "." + c
    requires '.' !in a && '.' !in b && '.' !in c
    requires ParseInt(a) == Some(x) && ParseInt(b) == Some(y) && ParseInt(c) == Some(z)
    ensures VersionTuple(s) == Ok([x, y, z])
  {
    VersionTupleOfTriple(a, b, c);
    ParseTriple(a, b, c, x, y, z);
  }

  lemma DigitLiterals()
    ensures ParseInt("0") == Some(0) && ParseInt("1") == Some(1) && ParseInt("2") == Some(2)
    ensures ParseInt("9") == Some(9) && ParseInt("10") == Some(10) && ParseInt("x") == None
  {
  }

  /** The version strings that the repository's tests use, read as tuples. */
  lemma TupleOf100() ensures VersionTuple("1.0.0") == Ok([1, 0, 0]) {
    DigitLiterals();
    TripleTuple("1.0.0", "1", "0", "0", 1, 0, 0);
  }

  lemma TupleOf101() ensures VersionTuple("1.0.1") == Ok([1, 0, 1]) {
    DigitLiterals();
    TripleTuple("1.0.1", "1", "0", "1", 1, 0, 1);
  }

  lemma TupleOf110() ensures VersionTuple("1.1.0") == Ok([1, 1, 0]) {
    DigitLiterals();
    TripleTuple("1.1.0", "1", "1", "0", 1, 1, 0);
  }

  lemma TupleOf200() ensures VersionTuple("2.0.0") == Ok([2, 0, 0]) {
    DigitLiterals();
    TripleTuple("2.0.0", "2", "0", "0", 2, 0, 0);
  }

  lemma TupleOf010() ensures VersionTuple("0.1.0") == Ok([0, 1, 0]) {
    DigitLiterals();
    TripleTuple("0.1.0", "0", "1", "0", 0, 1, 0);
  }

  lemma TupleOf020() ensures VersionTuple("0.2.0") == Ok([0, 2, 0]) {
    DigitLiterals();
    TripleTuple("0.2.0", "0", "2", "0", 0, 2, 0);
  }

  lemma TupleOf009() ensures VersionTuple("0.0.9") == Ok([0, 0, 9]) {
    DigitLiterals();
    TripleTuple("0.0.9", "0", "0", "9", 0, 0, 9);
  }

  /** The cases `compare_versions` is tested with. */
  lemma TestedComparisons()
    ensures CompareVersions("1.0.0", "1.0.0") == Ok(0)
    ensures CompareVersions("1.0.0", "1.0.1") == Ok(-1)
    ensures CompareVersions("1.0.0", "1.1.0") == Ok(-1)
    ensures CompareVersions("1.0.0", "2.0.0") == Ok(-1)
    ensures CompareVersions("1.0.1", "1.0.0") == Ok(1)
    ensures CompareVersions("1.1.0", "1.0.0") == Ok(1)
    ensures CompareVersions("2.0.0", "1.0.0") == Ok(1)
  {
    TupleOf100();
    TupleOf101();
    TupleOf110();
    TupleOf200();
  }

  /** The cases `is_newer_version` is tested with, against current version 0.1.0. */
  lemma TestedNewer()
    ensures IsNewerVersion("0.1.0", "0.2.0") == Ok(true)
    ensures IsNewerVersion("0.1.0", "1.0.0") == Ok(true)
  {
    TupleOf010();
    TupleOf020();
    TupleOf100();
  }

  lemma TestedNotNewer()
    ensures IsNewerVersion("0.1.0", "0.1.0") == Ok(false)
    ensures IsNewerVersion("0.1.0", "0.0.9") == Ok(false)
  {
    TupleOf010();
    TupleOf009();
  }

  lemma TupleOf1100() ensures VersionTuple("1.10.0") == Ok([1, 10, 0]) {
    DigitLiterals();
    TripleTuple("1.10.0", "1", "10", "0", 1, 10, 0);
  }

  lemma TupleOf190() ensures VersionTuple("1.9.0") == Ok([1, 9, 0]) {
    DigitLiterals();
    TripleTuple("1.9.0", "1", "9", "0", 1, 9, 0);
  }

  /** "1.10.0" is newer than "1.9.0": components are numbers, not text. */
  lemma TenIsAfterNine()
    ensures CompareVersions("1.10.0", "1.9.0") == Ok(1)
  {
    TupleOf1100();
    TupleOf190();
  }

  /** A component that is not a number makes the comparison fail. */
  lemma NonNumericFails()
    ensures CompareVersions("1.x.0", "1.0.0") == Err(ValueError("x"))
  {
    DigitLiterals();
    VersionTupleOfTriple("1", "x", "0");
    var tail := ["x", "0"];
    assert tail[0] == "x";
    assert ParseComponents(tail) == Err(ValueError("x"));
    var parts := ["1"] + tail;
    assert parts == ["1", "x", "0"] && parts[0] == "1" && parts[1..] == tail;
    assert ParseComponents(parts) == Err(ValueError("x"));
    assert "1" + "." + "x" + "." + "0" == "1.x.0";
  }

  /** "1.0" is older than "1.0.0". */
  lemma ShorterIsOlder()
    ensures CompareVersions("1.0", "1.0.0") == Ok(-1)
  {
    DigitLiterals();
    var parts := ["1", "0"];
    assert parts[1..] == ["0"];
    assert Join(parts, '.') == "1.0";
    SplitJoin(parts, '.');
    assert ParseComponents([]) == Ok([]);
    ParseComponentsCons("0", []);
    assert ["0"] + [] == ["0"];
    ParseComponentsCons("1", ["0"]);
    assert ["1"] + ["0"] == parts;
    assert [0] + [] == [0];
    SplitNoSeparator("0", '.');
    assert VersionTuple("0") == Ok([0]);
    CompareExtension("1.0", "0");
    assert "1.0" + "." + "0" == "1.0.0";
  }
}
