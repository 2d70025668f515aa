/**
 * The version-management script: reading the `__version__ = "..."` line of the
 * package's version file, rewriting it, bumping a major.minor.patch version and
 * checking the form of a version given on the command line. The file is a
 * parameter (None when it does not exist); the outcome of a command says what
 * the script would print or write.
 */
module VersionScript {
  import opened Wrappers
  import opened PyStr
  import opened Versions

  /** What `get_current_version` falls back to. */
  const DefaultVersion: string := "0.1.0"

  /** The literal text `__version__ = "` that both patterns start with. */
  const Marker: string := "__version__ = \""

  lemma MarkerFacts()
    ensures |Marker| == 15 && Marker[0] == '_' && Marker[14] == '"'
    ensures forall i :: 0 <= i < 14 ==> Marker[i] != '"'
  {
    assert Marker == "__version__ = " + "\"";
    assert '"' !in "__version__ = ";
  }

  /** A version value the rewrite can write: non-empty and free of quotes. */
  predicate QuotableValue(v: string) {
    v != [] && '"' !in v
  }

  /** The number of leading characters of `t` that are not '"': how far `[^"]+` can reach. */
  function QuoteFreeRun(t: string): (n: nat)
    ensures n <= |t|
    ensures forall i :: 0 <= i < n ==> t[i] != '"'
    ensures n < |t| ==> t[n] == '"'
    decreases |t|
  {
    if |t| == 0 || t[0] == '"' then 0 else 1 + QuoteFreeRun(t[1..])
  }

  /**
   * Whether the pattern `__version__ = "[^"]+"` matches at the very start of `t`;
   * Some(n) gives the length of the quoted value.
   */
  function MatchAt(t: string): (m: Option<nat>)
    ensures m.Some? ==> m.value > 0 && |Marker| + m.value < |t| && Marker <= t
  {
    if Marker <= t then
      var n := QuoteFreeRun(t[|Marker|..]);
      if n > 0 && |Marker| + n < |t| then Some(n) else None
    else None
  }

  /** What a match consists of: the marker, a non-empty quote-free value and a closing quote. */
  lemma MatchAtSound(t: string)
    requires MatchAt(t).Some?
    ensures var n := MatchAt(t).value;
      QuotableValue(t[|Marker|..|Marker| + n]) && t[|Marker| + n] == '"' &&
      t[..MatchLength(n)] == Replacement(t[|Marker|..|Marker| + n])
  {
    var n := MatchAt(t).value;
    var rest := t[|Marker|..];
    assert forall i :: 0 <= i < n ==> t[|Marker|..|Marker| + n][i] == rest[i];
    assert t[|Marker| + n] == rest[n];
    assert t[..|Marker|] == Marker;
    assert t[..MatchLength(n)] == t[..|Marker|] + t[|Marker|..|Marker| + n] + [t[|Marker| + n]];
  }

  /** The regular expression semantics: any quote-free non-empty value followed by a quote matches. */
  lemma MatchAtComplete(t: string, v: string)
    requires QuotableValue(v) && Marker + v + "\"" <= t
    ensures MatchAt(t) == Some(|v|)
  {
    var rest := t[|Marker|..];
    assert forall i :: 0 <= i < |v| ==> rest[i] == v[i] by {
      forall i | 0 <= i < |v| ensures rest[i] == v[i] {
        assert rest[i] == t[|Marker| + i] == (Marker + v + "\"")[|Marker| + i];
      }
    }
    assert rest[|v|] == (Marker + v + "\"")[|Marker| + |v|];
    QuoteFreeRunIs(rest, |v|);
    assert Marker <= t by { assert (Marker + v + "\"")[..|Marker|] == Marker; }
  }

  lemma {:induction false} QuoteFreeRunIs(t: string, n: nat)
    requires n < |t| && t[n] == '"'
    requires forall i :: 0 <= i < n ==> t[i] != '"'
    ensures QuoteFreeRun(t) == n
    decreases n
  {
    if n > 0 {
      assert forall i :: 0 <= i < n - 1 ==> t[1..][i] == t[i + 1];
      QuoteFreeRunIs(t[1..], n - 1);
    }
  }

  /** The length of the whole match: marker, value and closing quote. */
  function MatchLength(n: nat): nat {
    |Marker| + n + 1
  }

  /** The text `__version__ = "<v>"` that `update_version` substitutes. */
  function Replacement(v: string): string {
    Marker + v + "\""
  }

  /** The position of the leftmost match, as `re.search` finds it. */
  function FirstMatch(s: string): (r: Option<nat>)
    ensures r.Some? ==> r.value < |s|
    decreases |s|
  {
    if |s| == 0 then None
    else if MatchAt(s).Some? then Some(0)
    else
      match FirstMatch(s[1..])
      case None => None
      case Some(i) => Some(i + 1)
  }

  /** FirstMatch is the leftmost position where the pattern matches, and None only when it matches nowhere. */
  lemma {:induction false} FirstMatchLeftmost(s: string)
    ensures FirstMatch(s).Some? ==> MatchAt(s[FirstMatch(s).value..]).Some?
    ensures FirstMatch(s).Some? ==> forall j :: 0 <= j < FirstMatch(s).value ==> MatchAt(s[j..]).None?
    ensures FirstMatch(s).None? ==> forall j :: 0 <= j <= |s| ==> MatchAt(s[j..]).None?
    decreases |s|
  {
    if |s| == 0 {
      assert forall j :: 0 <= j <= |s| ==> s[j..] == "";
    } else if MatchAt(s).None? {
      FirstMatchLeftmost(s[1..]);
      var bound := if FirstMatch(s).Some? then FirstMatch(s).value else |s| + 1;
      forall j | 0 <= j < bound && j <= |s| ensures MatchAt(s[j..]).None? {
        if j > 0 {
          assert s[j..] == s[1..][j - 1..];
        }
      }
      if FirstMatch(s).Some? {
        assert s[FirstMatch(s).value..] == s[1..][FirstMatch(s).value - 1..];
      }
    }
  }

  /** `match.group(1)` of `re.search(r'__version__ = "([^"]+)"', content)`. */
  function SearchVersion(content: string): (r: Option<string>)
    ensures r.Some? ==> QuotableValue(r.value)
    ensures r.Some? <==> FirstMatch(content).Some?
    ensures r.Some? ==> Replacement(r.value) <= content[FirstMatch(content).value..]
  {
    match FirstMatch(content)
    case None => None
    case Some(i) =>
      FirstMatchLeftmost(content);
      var t := content[i..];
      MatchAtSound(t);
      var n := MatchAt(t).value;
      Some(t[|Marker|..|Marker| + n])
  }

  /** The content part of `get_current_version`: the first quoted version, or the default. */
  function GetCurrentVersion(file: Option<string>): (v: string)
    ensures file.None? || SearchVersion(file.value).None? ==> v == DefaultVersion
    ensures file.Some? && SearchVersion(file.value).Some? ==> v == SearchVersion(file.value).value
  {
    match file
    case None => DefaultVersion
    case Some(content) => SearchVersion(content).GetOr(DefaultVersion)
  }

  /**
   * `re.sub(r'__version__ = "[^"]+"', f'__version__ = "{v}"', s)`: every match,
   * left to right, replaced; text without a match comes back unchanged.
   */
  function Rewrite(s: string, v: string): (r: string)
    ensures FirstMatch(s).None? ==> r == s
    decreases |s|
  {
    if |s| == 0 then ""
    else
      match MatchAt(s)
      case Some(n) => Replacement(v) + Rewrite(s[MatchLength(n)..], v)
      case None => [s[0]] + Rewrite(s[1..], v)
  }

  /** Text before the first match is kept as it is. */
  lemma {:induction false} RewriteKeepsUnmatched(s: string, v: string, n: nat)
    requires n <= |s|
    requires forall j :: 0 <= j < n ==> MatchAt(s[j..]).None?
    ensures Rewrite(s, v) == s[..n] + Rewrite(s[n..], v)
    decreases n
  {
    if n > 0 {
      var u := s[1..];
      assert s[0..] == s;
      RewriteUnmatchedStep(s, v);
      NoMatchShift(s, n);
      RewriteKeepsUnmatched(u, v, n - 1);
      assert u[n - 1..] == s[n..];
      assert [s[0]] + u[..n - 1] == s[..n];
      ConcatRegroupLeft([s[0]], u[..n - 1], Rewrite(s[n..], v), Rewrite(u, v), Rewrite(s, v), s[..n]);
    }
  }

  lemma NoMatchShift(s: string, n: nat)
    requires 0 < n <= |s|
    requires forall j :: 0 <= j < n ==> MatchAt(s[j..]).None?
    ensures forall j :: 0 <= j < n - 1 ==> MatchAt(s[1..][j..]).None?
  {
    forall j | 0 <= j < n - 1 ensures MatchAt(s[1..][j..]).None? {
      assert s[1..][j..] == s[j + 1..];
    }
  }

  lemma RewriteUnmatchedStep(s: string, v: string)
    requires |s| > 0 && MatchAt(s).None?
    ensures Rewrite(s, v) == [s[0]] + Rewrite(s[1..], v)
  {
  }

  /**
   * The rewrite keeps the text before the first match, substitutes the match,
   * and goes on after it.
   */
  lemma RewriteFirstMatch(s: string, v: string) returns (i: nat, n: nat)
    requires FirstMatch(s).Some?
    ensures FirstMatch(s) == Some(i) && MatchAt(s[i..]) == Some(n) && i + MatchLength(n) <= |s|
    ensures Rewrite(s, v) == s[..i] + Replacement(v) + Rewrite(s[i + MatchLength(n)..], v)
  {
    i := FirstMatch(s).value;
    FirstMatchLeftmost(s);
    RewriteKeepsUnmatched(s, v, i);
    var t := s[i..];
    n := MatchAt(t).value;
    RewriteAtMatch(t, v);
    assert t[MatchLength(n)..] == s[i + MatchLength(n)..];
    ConcatRegroupRight(s[..i], Replacement(v), Rewrite(s[i + MatchLength(n)..], v), Rewrite(t, v), Rewrite(s, v));
  }

  /** Two occurrences of the marker cannot overlap: it has no proper border. */
  lemma MarkerNoOverlap(t: string, d: nat)
    requires 0 < d < |Marker| && d + |Marker| <= |t|
    ensures !(Marker <= t && Marker <= t[d..])
  {
    MarkerFacts();
    assert t[d..][14 - d] == t[14];
    assert Marker[14 - d] != Marker[14];
  }

  lemma MarkerStartsReplacement(v: string, tail: string)
    ensures Marker <= Replacement(v) + tail
  {
    PrefixOfConcat(Marker, v + "\"" + tail);
    assert Replacement(v) + tail == Marker + (v + "\"" + tail);
  }

  lemma PrefixOfConcat(a: string, b: string)
    ensures a <= a + b
  {
  }

  /** A replacement is itself a match. */
  lemma ReplacementMatches(v: string, t: string)
    requires QuotableValue(v)
    ensures MatchAt(Replacement(v) + t) == Some(|v|)
  {
    assert (Replacement(v) + t)[..|Replacement(v)|] == Replacement(v);
    MatchAtComplete(Replacement(v) + t, v);
  }

  lemma RewriteAtMatch(s: string, v: string)
    requires MatchAt(s).Some?
    ensures Rewrite(s, v) == Replacement(v) + Rewrite(s[MatchLength(MatchAt(s).value)..], v)
  {
  }

  /**
   * Text that agrees with `s` up to a marker at `d`, where `s` has no match at
   * its start, has no match at its start either.
   */
  lemma NoMatchBeforeMarker(s: string, o: string, d: nat)
    requires MatchAt(s).None? && 0 < d && d + |Marker| <= |s| && Marker <= s[d..]
    requires d + |Marker| <= |o| && o[..d] == s[..d] && Marker <= o[d..]
    ensures MatchAt(o).None?
  {
    MarkerFacts();
    if d < |Marker| {
      MarkerNoOverlap(o, d);
    } else if Marker <= o {
      assert o[..|Marker|] == s[..|Marker|];
      assert Marker <= s;
      var rest := s[|Marker|..];
      assert s[d..][0] == '_' && s[d..][14] == '"';
      assert rest[d - 1] == s[d + 14];
      assert QuoteFreeRun(rest) <= d - 1;
      assert rest[0] == '"';
      assert d != |Marker|;
      assert o[|Marker|..][0] == s[|Marker|];
    }
  }

  /** A match starts at the beginning of the rewritten text exactly when one started there before. */
  lemma MatchAtRewrite(s: string, v: string)
    requires QuotableValue(v)
    ensures MatchAt(Rewrite(s, v)).Some? <==> MatchAt(s).Some?
  {
    if MatchAt(s).Some? {
      ReplacementMatches(v, Rewrite(s[MatchLength(MatchAt(s).value)..], v));
    } else if |s| > 0 {
      RewriteUnmatchedStep(s, v);
      if FirstMatch(s[1..]).None? {
        assert [s[0]] + s[1..] == s;
      } else {
        NoMatchAfterRewrite(s, v);
      }
    }
  }

  lemma NoMatchAfterRewrite(s: string, v: string)
    requires QuotableValue(v) && |s| > 0 && MatchAt(s).None? && FirstMatch(s[1..]).Some?
    ensures MatchAt(Rewrite(s, v)).None?
  {
    var d := RewriteShape(s, v);
    NoMatchBeforeMarker(s, Rewrite(s, v), d);
  }

  /** When the first match of `s` is at `d > 0`, the rewrite keeps `s[..d]` and puts a marker at `d`. */
  lemma RewriteShape(s: string, v: string) returns (d: nat)
    requires |s| > 0 && MatchAt(s).None? && FirstMatch(s[1..]).Some?
    ensures d == FirstMatch(s[1..]).value + 1
    ensures d + |Marker| <= |s| && Marker <= s[d..]
    ensures d + |Marker| <= |Rewrite(s, v)| && Rewrite(s, v)[..d] == s[..d] && Marker <= Rewrite(s, v)[d..]
  {
    var m, r := RewriteAround(s, v);
    ShiftedMarker(s, m, r, Rewrite(s, v));
    d := m + 1;
  }

  lemma RewriteAround(s: string, v: string) returns (m: nat, r: string)
    requires |s| > 0 && MatchAt(s).None? && FirstMatch(s[1..]).Some?
    ensures m == FirstMatch(s[1..]).value && m < |s| - 1 && Marker <= s[1..][m..]
    ensures Marker <= r && Rewrite(s, v) == [s[0]] + s[1..][..m] + r
  {
    var u := s[1..];
    var n;
    m, n := RewriteFirstMatch(u, v);
    RewriteUnmatchedStep(s, v);
    var tail := Rewrite(u[m + MatchLength(n)..], v);
    r := Replacement(v) + tail;
    MarkerStartsReplacement(v, tail);
    ConcatRegroup([s[0]], u[..m], Replacement(v), tail, Rewrite(u, v), Rewrite(s, v));
  }

  lemma ConcatRegroupLeft(a: string, b: string, c: string, bc: string, abc: string, ab: string)
    requires bc == b + c && abc == a + bc && ab == a + b
    ensures abc == ab + c
  {
  }

  lemma ConcatRegroupRight(a: string, b: string, c: string, bc: string, abc: string)
    requires bc == b + c && abc == a + bc
    ensures abc == a + b + c
  {
  }

  lemma ConcatRegroup(a: string, b: string, c: string, d: string, bcd: string, abcd: string)
    requires bcd == b + c + d && abcd == a + bcd
    ensures abcd == a + b + (c + d)
  {
  }

  lemma ShiftedMarker(s: string, m: nat, r: string, o: string)
    requires |s| > 0 && m < |s| - 1 && Marker <= s[1..][m..] && Marker <= r
    requires o == [s[0]] + s[1..][..m] + r
    ensures m + 1 + |Marker| <= |s| && Marker <= s[m + 1..]
    ensures m + 1 + |Marker| <= |o| && o[..m + 1] == s[..m + 1] && Marker <= o[m + 1..]
  {
    assert [s[0]] + s[1..][..m] == s[..m + 1];
    assert s[1..][m..] == s[m + 1..];
    assert o[m + 1..] == r;
  }

  /** Rewriting twice with the same quote-free version is the same as rewriting once. */
  lemma {:induction false} RewriteIdempotent(s: string, v: string)
    requires QuotableValue(v)
    ensures Rewrite(Rewrite(s, v), v) == Rewrite(s, v)
    decreases |s|
  {
    if |s| > 0 {
      match MatchAt(s)
      case Some(n) =>
        var tail := Rewrite(s[MatchLength(n)..], v);
        var o := Replacement(v) + tail;
        ReplacementMatches(v, tail);
        assert o[MatchLength(|v|)..] == tail;
        RewriteIdempotent(s[MatchLength(n)..], v);
      case None =>
        var o := Rewrite(s, v);
        MatchAtRewrite(s, v);
        assert o == [s[0]] + Rewrite(s[1..], v);
        assert o[1..] == Rewrite(s[1..], v);
        RewriteIdempotent(s[1..], v);
    }
  }

  /** A text that starts with a replacement reads back as its version. */
  lemma SearchReplacement(v: string, tail: string)
    requires QuotableValue(v)
    ensures SearchVersion(Replacement(v) + tail) == Some(v)
  {
    var o := Replacement(v) + tail;
    ReplacementMatches(v, tail);
    assert o[0..] == o;
    assert FirstMatch(o) == Some(0);
    assert o[|Marker|..|Marker| + |v|] == v;
  }

  /** After a rewrite that found a match, reading the version back gives the new version. */
  lemma {:induction false} RewriteThenSearch(s: string, v: string)
    requires QuotableValue(v) && FirstMatch(s).Some?
    ensures SearchVersion(Rewrite(s, v)) == Some(v)
    decreases |s|
  {
    var o := Rewrite(s, v);
    match MatchAt(s)
    case Some(n) =>
      SearchReplacement(v, Rewrite(s[MatchLength(n)..], v));
    case None =>
      MatchAtRewrite(s, v);
      assert o == [s[0]] + Rewrite(s[1..], v);
      assert o[1..] == Rewrite(s[1..], v);
      assert FirstMatch(s[1..]).Some?;
      RewriteThenSearch(s[1..], v);
      var i := FirstMatch(o[1..]).value;
      assert FirstMatch(o) == Some(i + 1);
      assert o[i + 1..] == o[1..][i..];
  }

  /** `f"{major}.{minor}.{patch}"`. */
  function FormatVersion(major: int, minor: int, patch: int): (r: string)
    ensures |r| > 0 && (r[0] == '-' <==> major < 0)
  {
    IntToString(major) + "." + IntToString(minor) + "." + IntToString(patch)
  }

  /** Splitting and int-parsing a formatted version gives the three numbers back. */
  lemma FormatVersionRoundTrip(major: int, minor: int, patch: int)
    ensures Split(FormatVersion(major, minor, patch), '.') == [IntToString(major), IntToString(minor), IntToString(patch)]
    ensures VersionTuple(FormatVersion(major, minor, patch)) == Ok([major, minor, patch])
  {
    var a, b, c := IntToString(major), IntToString(minor), IntToString(patch);
    IntToStringHasNoDot(major);
    IntToStringHasNoDot(minor);
    IntToStringHasNoDot(patch);
    ParseIntToString(major);
    ParseIntToString(minor);
    ParseIntToString(patch);
    TripleTuple(FormatVersion(major, minor, patch), a, b, c, major, minor, patch);
    SplitThree(a, b, c);
  }

  /** A formatted version holds no quote, so the rewrite can write it. */
  lemma FormatVersionQuotable(major: int, minor: int, patch: int)
    ensures QuotableValue(FormatVersion(major, minor, patch))
  {
    IntToStringChars(major);
    IntToStringChars(minor);
    IntToStringChars(patch);
    var s := FormatVersion(major, minor, patch);
    var a, b, c := IntToString(major), IntToString(minor), IntToString(patch);
    forall i | 0 <= i < |s| ensures s[i] != '"' {
      if i < |a| { assert s[i] == a[i]; }
      else if i == |a| { }
      else if i < |a| + 1 + |b| { assert s[i] == b[i - |a| - 1]; }
      else if i == |a| + 1 + |b| { }
      else { assert s[i] == c[i - |a| - |b| - 2]; }
    }
  }

  /** The `set` command's check `^\d+\.\d+\.\d+$`, on ASCII text. */
  predicate IsVersionFormat(s: string)
    ensures IsVersionFormat(s) ==> |s| >= 5 && IsDigit(s[0]) && IsDigit(s[|s| - 1])
  {
    var parts := Split(s, '.');
    if |parts| == 3 then
      JoinThree(parts, '.');
      IsDigits(parts[0]) && IsDigits(parts[1]) && IsDigits(parts[2])
    else false
  }

  /** Every string the check accepts is three digit runs separated by dots. */
  lemma VersionFormatSound(s: string)
    requires IsVersionFormat(s)
    ensures var p := Split(s, '.'); s == p[0] + "." + p[1] + "." + p[2]
  {
    var p := Split(s, '.');
    assert p[1..][1..] == [p[2]];
    assert Join(p[1..][1..], '.') == p[2];
    assert Join(p[1..], '.') == p[1] + "." + p[2];
  }

  /** Every three digit runs separated by dots pass the check. */
  lemma VersionFormatComplete(a: string, b: string, c: string)
    requires IsDigits(a) && IsDigits(b) && IsDigits(c)
    ensures IsVersionFormat(a + "." + b + "." + c)
  {
    assert forall i :: 0 <= i < |a| ==> a[i] != '.';
    assert forall i :: 0 <= i < |b| ==> b[i] != '.';
    assert forall i :: 0 <= i < |c| ==> c[i] != '.';
    SplitThree(a, b, c);
  }

  /** A formatted version of non-negative numbers passes the `set` check. */
  lemma FormatVersionPassesCheck(major: nat, minor: nat, patch: nat)
    ensures IsVersionFormat(FormatVersion(major, minor, patch))
  {
    VersionFormatComplete(IntToString(major), IntToString(minor), IntToString(patch));
  }

  /** A version accepted by the check holds no quote. */
  lemma VersionFormatQuotable(s: string)
    requires IsVersionFormat(s)
    ensures QuotableValue(s)
  {
    VersionFormatSound(s);
    var p := Split(s, '.');
    forall i | 0 <= i < |s| ensures s[i] != '"' {
      if i < |p[0]| { assert s[i] == p[0][i]; }
      else if i == |p[0]| { }
      else if i < |p[0]| + 1 + |p[1]| { assert s[i] == p[1][i - |p[0]| - 1]; }
      else if i == |p[0]| + 1 + |p[1]| { }
      else { assert s[i] == p[2][i - |p[0]| - |p[1]| - 2]; }
    }
  }

  datatype BumpError =
    | InvalidFormat(current: string)     // not exactly three dot-separated parts
    | NonNumeric(current: string)        // a part that int() rejects
    | InvalidType(versionType: string)   // not "major", "minor" or "patch"

  /** `bump_version`, with the current version (read by `get_current_version`) as a parameter. */
  function BumpVersion(current: string, versionType: string): (r: Result<string, BumpError>)
    ensures r == Err(InvalidFormat(current)) <==> |Split(current, '.')| != 3
    ensures r.Err? <==>
      |Split(current, '.')| != 3 || VersionTuple(current).Err? || versionType !in ["major", "minor", "patch"]
  {
    var parts := Split(current, '.');
    if |parts| != 3 then Err(InvalidFormat(current))
    else
      match ParseComponents(parts)
      case Err(_) => Err(NonNumeric(current))
      case Ok(t) =>
        if versionType == "major" then Ok(FormatVersion(t[0] + 1, 0, 0))
        else if versionType == "minor" then Ok(FormatVersion(t[0], t[1] + 1, 0))
        else if versionType == "patch" then Ok(FormatVersion(t[0], t[1], t[2] + 1))
        else Err(InvalidType(versionType))
  }

  /** The bumped version reads back as the expected triple. */
  lemma BumpArithmetic(current: string, versionType: string)
    requires BumpVersion(current, versionType).Ok?
    ensures VersionTuple(current).Ok? && |VersionTuple(current).value| == 3
    ensures var t := VersionTuple(current).value;
      VersionTuple(BumpVersion(current, versionType).value) == Ok(
        if versionType == "major" then [t[0] + 1, 0, 0]
        else if versionType == "minor" then [t[0], t[1] + 1, 0]
        else [t[0], t[1], t[2] + 1])
  {
    var t := VersionTuple(current).value;
    if versionType == "major" { FormatVersionRoundTrip(t[0] + 1, 0, 0); }
    else if versionType == "minor" { FormatVersionRoundTrip(t[0], t[1] + 1, 0); }
    else { FormatVersionRoundTrip(t[0], t[1], t[2] + 1); }
  }

  /** The bumped version is strictly newer than the current one. */
  lemma BumpIsNewer(current: string, versionType: string)
    requires BumpVersion(current, versionType).Ok?
    ensures CompareVersions(BumpVersion(current, versionType).value, current) == Ok(1)
    ensures IsNewerVersion(current, BumpVersion(current, versionType).value) == Ok(true)
  {
    BumpArithmetic(current, versionType);
    var t := VersionTuple(current).value;
    var b := VersionTuple(BumpVersion(current, versionType).value).value;
    var k := if versionType == "major" then 0 else if versionType == "minor" then 1 else 2;
    assert t[..k] == b[..k] && t[k] < b[k];
    TupleLessIsLexLess(t, b);
  }

  /** Bumping a version that passes the `set` check gives one that passes it too. */
  lemma BumpKeepsFormat(current: string, versionType: string)
    requires IsVersionFormat(current) && BumpVersion(current, versionType).Ok?
    ensures IsVersionFormat(BumpVersion(current, versionType).value)
  {
    var p := Split(current, '.');
    var t := ParseComponents(p).value;
    ParseComponentsSpec(p);
    assert ParseInt(p[0]) == Some(t[0]) && ParseInt(p[1]) == Some(t[1]) && ParseInt(p[2]) == Some(t[2]);
    assert t[0] >= 0 && t[1] >= 0 && t[2] >= 0;
    if versionType == "major" { FormatVersionPassesCheck(t[0] + 1, 0, 0); }
    else if versionType == "minor" { FormatVersionPassesCheck(t[0], t[1] + 1, 0); }
    else { FormatVersionPassesCheck(t[0], t[1], t[2] + 1); }
  }

  datatype CommandError =
    | MissingValue                          // `set` or `bump` without a value
    | InvalidVersionFormat(value: string)   // `set` value fails the check
    | InvalidVersionType(value: string)     // `bump` value not major/minor/patch
    | FileMissing                           // the version file does not exist
    | BumpFailed(error: BumpError)

  /** The `set` command's checks on its value; Python treats an empty value like a missing one. */
  function CheckSetValue(value: Option<string>): (r: Result<string, CommandError>)
    ensures r.Ok? <==> value.Some? && IsVersionFormat(value.value)
    ensures r.Ok? ==> r.value == value.value
    ensures value.None? || value == Some("") ==> r == Err(MissingValue)
  {
    match value
    case None => Err(MissingValue)
    case Some(v) =>
      if v == "" then Err(MissingValue)
      else if !IsVersionFormat(v) then Err(InvalidVersionFormat(v))
      else Ok(v)
  }

  datatype Action = Show | Set | Bump

  datatype Outcome =
    | Shown(version: string)        // printed by `show`
    | Written(content: string)      // new content of the version file
    | Unchanged(version: string)    // the warning that the version is already set
    | Failed(error: CommandError)   // an error message and exit status 1

  /** The content logic of `update_version`: nothing is written when the rewrite changes nothing. */
  function UpdateVersion(file: Option<string>, newVersion: string): (r: Outcome)
    ensures file.None? <==> r == Failed(FileMissing)
    ensures r.Written? ==> file.Some? && r.content != file.value && r.content == Rewrite(file.value, newVersion)
    ensures r.Unchanged? <==> file.Some? && Rewrite(file.value, newVersion) == file.value
  {
    match file
    case None => Failed(FileMissing)
    case Some(content) =>
      var updated := Rewrite(content, newVersion);
      if updated == content then Unchanged(newVersion) else Written(updated)
  }

  /** `main` for one invocation: the action, its optional value and the version file's content. */
  function RunCommand(action: Action, value: Option<string>, file: Option<string>): (r: Outcome)
    ensures r.Shown? <==> action == Show
    ensures r.Written? ==> file.Some? && r.content != file.value
    ensures action != Show && file.None? ==> r.Failed?
  {
    match action
    case Show => Shown(GetCurrentVersion(file))
    case Set => (
      match CheckSetValue(value)
      case Err(e) => Failed(e)
      case Ok(v) => UpdateVersion(file, v))
    case Bump =>
      if value.None? || value.value == "" then Failed(MissingValue)
      else if value.value !in ["major", "minor", "patch"] then Failed(InvalidVersionType(value.value))
      else
        match BumpVersion(GetCurrentVersion(file), value.value)
        case Err(e) => Failed(BumpFailed(e))
        case Ok(v) => UpdateVersion(file, v)
  }

  /** `set` writes only values that pass the check, and only when the file has a version line. */
  lemma SetWrites(value: Option<string>, file: Option<string>)
    requires RunCommand(Set, value, file).Written?
    ensures value.Some? && IsVersionFormat(value.value)
    ensures file.Some? && FirstMatch(file.value).Some?
  {
  }

  /** After `set v` has written the file, `show` prints v. */
  lemma SetThenShow(v: string, content: string)
    requires RunCommand(Set, Some(v), Some(content)).Written?
    ensures RunCommand(Show, None, Some(RunCommand(Set, Some(v), Some(content)).content)) == Shown(v)
  {
    SetWrites(Some(v), Some(content));
    VersionFormatQuotable(v);
    RewriteThenSearch(content, v);
  }

  /** Running the same `set` again on the file it wrote changes nothing. */
  lemma SetTwice(v: string, content: string)
    requires RunCommand(Set, Some(v), Some(content)).Written?
    ensures RunCommand(Set, Some(v), Some(RunCommand(Set, Some(v), Some(content)).content)) == Unchanged(v)
  {
    VersionFormatQuotable(v);
    RewriteIdempotent(content, v);
  }

  /** A bumped version can be written by the rewrite. */
  lemma BumpedQuotable(current: string, versionType: string)
    requires BumpVersion(current, versionType).Ok?
    ensures QuotableValue(BumpVersion(current, versionType).value)
  {
    var t := ParseComponents(Split(current, '.')).value;
    if versionType == "major" { FormatVersionQuotable(t[0] + 1, 0, 0); }
    else if versionType == "minor" { FormatVersionQuotable(t[0], t[1] + 1, 0); }
    else { FormatVersionQuotable(t[0], t[1], t[2] + 1); }
  }

  /** `bump` writes only a successfully bumped version, and only when the file has a version line. */
  lemma BumpWrites(kind: string, content: string)
    requires RunCommand(Bump, Some(kind), Some(content)).Written?
    ensures BumpVersion(GetCurrentVersion(Some(content)), kind).Ok?
    ensures FirstMatch(content).Some?
    ensures RunCommand(Bump, Some(kind), Some(content)).content ==
      Rewrite(content, BumpVersion(GetCurrentVersion(Some(content)), kind).value)
  {
  }

  /** After `bump` has written the file, `show` prints a strictly newer version than before. */
  lemma BumpThenShow(kind: string, content: string)
    requires RunCommand(Bump, Some(kind), Some(content)).Written?
    ensures var after := GetCurrentVersion(Some(RunCommand(Bump, Some(kind), Some(content)).content));
      IsNewerVersion(GetCurrentVersion(Some(content)), after) == Ok(true)
  {
    var current := GetCurrentVersion(Some(content));
    BumpWrites(kind, content);
    var bumped := BumpVersion(current, kind).value;
    BumpedQuotable(current, kind);
    RewriteThenSearch(content, bumped);
    BumpIsNewer(current, kind);
  }
}
