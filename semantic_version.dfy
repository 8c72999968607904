/**
 * SemanticVersion: a major.minor.patch triple of Java ints, parsed from and printed to text,
 * and ordered lexicographically.
 */
module SemanticVersions {
  import opened Wrappers
  import opened Decimal
  import JavaStrings

  datatype SemanticVersion = SemanticVersion(major: Int32, minor: Int32, patch: Int32)

  /**
   * Why the parsing constructor throws: NumberFormatException from Integer.parseInt on a part,
   * or IndexOutOfBoundsException when fewer than three parts are present.
   */
  datatype ParseError = NumberFormat(part: string) | MissingPart(index: nat)

  /** toString: format("%d.%d.%d", major, minor, patch). */
  function ToString(v: SemanticVersion): (r: string)
    ensures JavaStrings.SplitAll(r, '.') == [IntToString(v.major), IntToString(v.minor), IntToString(v.patch)]
  {
    NoDotInIntToString(v.major);
    NoDotInIntToString(v.minor);
    NoDotInIntToString(v.patch);
    JoinThree(IntToString(v.major), IntToString(v.minor), IntToString(v.patch));
    IntToString(v.major) + "." + IntToString(v.minor) + "." + IntToString(v.patch)
  }

  lemma NoDotInIntToString(i: int)
    ensures '.' !in IntToString(i)
  {
  }

  /** Three pieces without dots, joined with dots. */
  lemma JoinThree(a: string, b: string, c: string)
    requires '.' !in a && '.' !in b && '.' !in c
    ensures JavaStrings.Join([a, b, c], '.') == a + "." + b + "." + c
    ensures JavaStrings.SplitAll(a + "." + b + "." + c, '.') == [a, b, c]
  {
    var parts := [a, b, c];
    assert parts[1..] == [b, c];
    assert [b, c][1..] == [c];
    calc {
      JavaStrings.Join(parts, '.');
      a + ['.'] + JavaStrings.Join([b, c], '.');
      a + ['.'] + (b + ['.'] + JavaStrings.Join([c], '.'));
      a + ['.'] + (b + ['.'] + c);
      { assert a + ['.'] + (b + ['.'] + c) == a + "." + b + "." + c; }
      a + "." + b + "." + c;
    }
    assert forall k :: 0 <= k < |parts| ==> '.' !in parts[k];
    JavaStrings.SplitAllJoin(parts, '.');
  }

  /** Integer.parseInt applied to every part in order; the first failing part is reported. */
  function ParseAll(parts: seq<string>): (r: Result<seq<Int32>, ParseError>)
    ensures r.Success? <==> forall k :: 0 <= k < |parts| ==> ParseInt(parts[k]).Some?
    ensures r.Success? ==>
              |r.value| == |parts| && forall k :: 0 <= k < |parts| ==> ParseInt(parts[k]) == Some(r.value[k])
    ensures r.Failure? ==> exists k :: 0 <= k < |parts| && r.error == NumberFormat(parts[k]) && ParseInt(parts[k]).None?
  {
    if parts == [] then Success([])
    else
      match ParseInt(parts[0])
      case None => Failure(NumberFormat(parts[0]))
      case Some(x) =>
        match ParseAll(parts[1..])
        case Failure(e) => Failure(e)
        case Success(xs) => Success([x] + xs)
  }

  /**
   * The parsing constructor SemanticVersion(String): split on '.', parse every part, and
   * take the first three values; further integer parts are ignored.
   */
  function Parse(s: string): (r: Result<SemanticVersion, ParseError>)
    ensures var parts := JavaStrings.Split(s, '.');
            r.Success? <==> |parts| >= 3 && forall k :: 0 <= k < |parts| ==> ParseInt(parts[k]).Some?
    ensures var parts := JavaStrings.Split(s, '.');
            r.Success? ==>
              && Some(r.value.major) == ParseInt(parts[0])
              && Some(r.value.minor) == ParseInt(parts[1])
              && Some(r.value.patch) == ParseInt(parts[2])
  {
    match ParseAll(JavaStrings.Split(s, '.'))
    case Failure(e) => Failure(e)
    case Success(values) =>
      if |values| < 3 then Failure(MissingPart(|values|))
      else Success(SemanticVersion(values[0], values[1], values[2]))
  }

  /** Three dot-free parts joined with dots, the last one non-empty, split back into themselves. */
  lemma SplitThree(a: string, b: string, c: string)
    requires '.' !in a && '.' !in b && '.' !in c && c != []
    ensures JavaStrings.Split(a + "." + b + "." + c, '.') == [a, b, c]
  {
    var s := a + "." + b + "." + c;
    JoinThree(a, b, c);
    assert s[|a|] == '.';
    assert JavaStrings.DropTrailingEmpty([a, b, c]) == [a, b, c];
  }

  /** Three dot-free parts that parseInt accepts make a version, whatever their spelling. */
  lemma ParseThree(a: string, b: string, c: string)
    requires '.' !in a && '.' !in b && '.' !in c && c != []
    requires ParseInt(a).Some? && ParseInt(b).Some? && ParseInt(c).Some?
    ensures Parse(a + "." + b + "." + c) == Success(SemanticVersion(ParseInt(a).value, ParseInt(b).value, ParseInt(c).value))
  {
    SplitThree(a, b, c);
    ParseAllCons(c, []);
    assert [c] + [] == [c];
    ParseAllCons(b, [c]);
    assert [b] + [c] == [b, c];
    ParseAllCons(a, [b, c]);
    assert [a] + [b, c] == [a, b, c];
  }

  /** ParseAll, unfolded at one more part that parses. */
  lemma ParseAllCons(x: string, xs: seq<string>)
    requires ParseInt(x).Some? && ParseAll(xs).Success?
    ensures ParseAll([x] + xs) == Success([ParseInt(x).value] + ParseAll(xs).value)
  {
    assert ([x] + xs)[1..] == xs;
  }

  /** The strings that toString produces: exactly three canonical decimal ints. */
  predicate Canonical(s: string) {
    var parts := JavaStrings.SplitAll(s, '.');
    |parts| == 3 && CanonicalInt(parts[0]) && CanonicalInt(parts[1]) && CanonicalInt(parts[2])
  }

  /** Parsing the printed form gives the version back, negative components included. */
  lemma ParseToString(v: SemanticVersion)
    ensures Parse(ToString(v)) == Success(v)
  {
    var s := ToString(v);
    var parts := JavaStrings.SplitAll(s, '.');
    assert s[|IntToString(v.major)|] == '.';
    assert JavaStrings.Split(s, '.') == parts;
    ParseIntToString(v.major);
    ParseIntToString(v.minor);
    ParseIntToString(v.patch);
  }

  /** toString produces only canonical strings. */
  lemma ToStringCanonical(v: SemanticVersion)
    ensures Canonical(ToString(v))
  {
    IntToStringCanonical(v.major);
    IntToStringCanonical(v.minor);
    IntToStringCanonical(v.patch);
  }

  /** A canonical string is the three canonical ints joined with dots. */
  lemma CanonicalShape(s: string)
    requires Canonical(s)
    ensures var parts := JavaStrings.SplitAll(s, '.');
            s == parts[0] + "." + parts[1] + "." + parts[2] && JavaStrings.Split(s, '.') == parts
  {
    var parts := JavaStrings.SplitAll(s, '.');
    JavaStrings.JoinSplitAll(s, '.');
    assert parts == [parts[0], parts[1], parts[2]];
    JoinThree(parts[0], parts[1], parts[2]);
    assert s[|parts[0]|] == '.';
  }

  /** A canonical string is parsed, and printing the result gives the string back. */
  lemma CanonicalToStringParse(s: string)
    requires Canonical(s)
    ensures Parse(s).Success? && ToString(Parse(s).value) == s
  {
    var parts := JavaStrings.SplitAll(s, '.');
    CanonicalShape(s);
    var a, b, c := parts[0], parts[1], parts[2];
    CanonicalIntRoundTrip(a);
    CanonicalIntRoundTrip(b);
    CanonicalIntRoundTrip(c);
    assert JavaStrings.Split(s, '.') == [a, b, c];
    forall k | 0 <= k < 3
      ensures ParseInt([a, b, c][k]).Some?
    {
      if k == 0 { assert [a, b, c][k] == a; }
      else if k == 1 { assert [a, b, c][k] == b; }
      else { assert [a, b, c][k] == c; }
    }
    var v := Parse(s).value;
    PrintParts(v, a, b, c);
  }

  /** A version whose components print as the three pieces prints as the pieces joined with dots. */
  lemma PrintParts(v: SemanticVersion, a: string, b: string, c: string)
    requires IntToString(v.major) == a && IntToString(v.minor) == b && IntToString(v.patch) == c
    ensures ToString(v) == a + "." + b + "." + c
  {
  }

  /** Printing a parsed string gives it back exactly when the string is canonical. */
  lemma ToStringParse(s: string)
    ensures Parse(s).Success? && ToString(Parse(s).value) == s <==> Canonical(s)
  {
    if Canonical(s) {
      CanonicalToStringParse(s);
    }
    if Parse(s).Success? && ToString(Parse(s).value) == s {
      ToStringCanonical(Parse(s).value);
    }
  }

  /** Integer.compare. */
  function CompareInt(x: int, y: int): int {
    if x < y then -1 else if x == y then 0 else 1
  }

  /** Lexicographic "strictly before" on (major, minor, patch). */
  predicate Before(a: SemanticVersion, b: SemanticVersion) {
    || a.major < b.major
    || (a.major == b.major && a.minor < b.minor)
    || (a.major == b.major && a.minor == b.minor && a.patch < b.patch)
  }

  /** compareTo: comparing major, then minor, then patch. */
  function CompareTo(a: SemanticVersion, b: SemanticVersion): (r: int)
    ensures r == -1 || r == 0 || r == 1
    ensures r == 0 <==> a == b
    ensures r < 0 <==> Before(a, b)
    ensures r > 0 <==> Before(b, a)
  {
    var c := CompareInt(a.major, b.major);
    if c != 0 then c
    else
      var c' := CompareInt(a.minor, b.minor);
      if c' != 0 then c' else CompareInt(a.patch, b.patch)
  }

  /** compareTo is a total order: reflexive, antisymmetric in sign, transitive and total. */
  lemma CompareToTotalOrder(a: SemanticVersion, b: SemanticVersion, c: SemanticVersion)
    ensures CompareTo(a, a) == 0
    ensures CompareTo(a, b) == -CompareTo(b, a)
    ensures CompareTo(a, b) <= 0 && CompareTo(b, c) <= 0 ==> CompareTo(a, c) <= 0
    ensures CompareTo(a, b) < 0 && CompareTo(b, c) < 0 ==> CompareTo(a, c) < 0
    ensures CompareTo(a, b) <= 0 || CompareTo(b, a) <= 0
  {
  }
}
