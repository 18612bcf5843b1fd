/** The convention resolver of `_HealPixSpherical.__init__`: a convention
    string is stripped of spaces, lower-cased and checked against the four
    legal values; the normalised string is what the operator keeps. */
module Conventions {
  import opened Wrappers
  import opened Errors

  /** `_HealPixSpherical.CONVENTIONS`, in the source's order. */
  const Names: seq<string> :=
    ["zenith,azimuth", "azimuth,zenith", "elevation,azimuth", "azimuth,elevation"]

  /** A resolved convention. The operator stores its `Name()`, the
      normalised string; the two queries below are the string tests the
      `direct` methods perform on it. */
  datatype Convention = ZenithAzimuth | AzimuthZenith | ElevationAzimuth | AzimuthElevation
  {
    function Name(): (s: string)
      ensures s in Names
    {
      match this
      case ZenithAzimuth => "zenith,azimuth"
      case AzimuthZenith => "azimuth,zenith"
      case ElevationAzimuth => "elevation,azimuth"
      case AzimuthElevation => "azimuth,elevation"
    }

    /** `self.convention.startswith('azimuth')`: true exactly for the two
        conventions that put the azimuth first. */
    function AzimuthFirst(): (b: bool)
      ensures b <==> (this == AzimuthZenith || this == AzimuthElevation)
    {
      ConventionQueries(this);
      StartsWith(Name(), "azimuth")
    }

    /** `'elevation' in self.convention`: true exactly for the two
        elevation conventions. */
    function UsesElevation(): (b: bool)
      ensures b <==> (this == ElevationAzimuth || this == AzimuthElevation)
    {
      ConventionQueries(this);
      Contains(Name(), "elevation")
    }
  }

  predicate StartsWith(s: string, prefix: string) {
    |prefix| <= |s| && s[..|prefix|] == prefix
  }

  /** `sub` occurs in `s` starting at index `i`. */
  predicate OccursAt(s: string, sub: string, i: int) {
    0 <= i <= |s| - |sub| && s[i..i + |sub|] == sub
  }

  /** Python's substring test `sub in s`. */
  predicate Contains(s: string, sub: string) {
    exists i | 0 <= i <= |s| - |sub| :: OccursAt(s, sub, i)
  }

  /** Every character of a contained string occurs in the containing one. */
  lemma ContainedCharOccurs(s: string, sub: string, k: int)
    requires Contains(s, sub) && 0 <= k < |sub|
    ensures sub[k] in s
  {
    var i :| 0 <= i <= |s| - |sub| && OccursAt(s, sub, i);
    assert s[i + k] == s[i..i + |sub|][k];
  }

  /** The string tests of the `direct` methods single out the intended
      conventions: the azimuth-first ones, and the elevation ones. */
  lemma ConventionQueries(c: Convention)
    ensures StartsWith(c.Name(), "azimuth") <==> (c == AzimuthZenith || c == AzimuthElevation)
    ensures Contains(c.Name(), "elevation") <==> (c == ElevationAzimuth || c == AzimuthElevation)
  {
    match c
    case ZenithAzimuth =>
      assert c.Name()[..7][0] != "azimuth"[0];
      if Contains(c.Name(), "elevation") { ContainedCharOccurs(c.Name(), "elevation", 3); }
    case AzimuthZenith =>
      assert c.Name()[..7] == "azimuth";
      if Contains(c.Name(), "elevation") { ContainedCharOccurs(c.Name(), "elevation", 3); }
    case ElevationAzimuth =>
      assert c.Name()[..7][0] != "azimuth"[0];
      assert OccursAt(c.Name(), "elevation", 0);
    case AzimuthElevation =>
      assert c.Name()[..7] == "azimuth";
      assert OccursAt(c.Name(), "elevation", 8);
  }

  predicate IsUpper(ch: char) {
    'A' <= ch <= 'Z'
  }

  /** `str.lower()` on one character (only A-Z change; see README). */
  function LowerChar(ch: char): (r: char)
    ensures IsUpper(ch) ==> 'a' <= r <= 'z' && r as int - 'a' as int == ch as int - 'A' as int
    ensures !IsUpper(r)
    ensures r == ' ' <==> ch == ' '
    ensures !IsUpper(ch) ==> r == ch
  {
    if IsUpper(ch) then (ch as int - 'A' as int + 'a' as int) as char else ch
  }

  /** `str.lower()` */
  function Lower(s: string): (r: string)
    ensures |r| == |s|
    ensures forall i :: 0 <= i < |s| ==> r[i] == LowerChar(s[i])
  {
    seq(|s|, i requires 0 <= i < |s| => LowerChar(s[i]))
  }

  /** `str.replace(' ', '')` */
  function RemoveSpaces(s: string): (r: string)
    ensures ' ' !in r
    ensures |r| <= |s|
    ensures ' ' !in s ==> r == s
  {
    if s == [] then []
    else
      var rest := RemoveSpaces(s[1..]);
      if s[0] == ' ' then rest else [s[0]] + rest
  }

  /** Removing spaces keeps every other character, as often as it occurs. */
  lemma {:induction false} RemoveSpacesKeepsOthers(s: string)
    ensures multiset(RemoveSpaces(s)) == multiset(s)[' ' := 0]
  {
    if s != [] {
      assert s == [s[0]] + s[1..];
      RemoveSpacesKeepsOthers(s[1..]);
    }
  }

  /** Removing spaces works piecewise on a concatenation. */
  lemma {:induction false} RemoveSpacesConcat(a: string, b: string)
    ensures RemoveSpaces(a + b) == RemoveSpaces(a) + RemoveSpaces(b)
  {
    if a == [] {
      assert a + b == b;
    } else {
      assert (a + b)[0] == a[0] && (a + b)[1..] == a[1..] + b;
      RemoveSpacesConcat(a[1..], b);
    }
  }

  /** The normalisation `convention.replace(' ', '').lower()`. */
  function Normalize(s: string): (r: string)
    ensures ' ' !in r
    ensures forall i :: 0 <= i < |r| ==> !IsUpper(r[i])
    ensures |r| <= |s|
  {
    Lower(RemoveSpaces(s))
  }

  /** A string without spaces or capitals is its own normal form. */
  lemma NormalFormFixed(s: string)
    requires ' ' !in s
    requires forall i :: 0 <= i < |s| ==> !IsUpper(s[i])
    ensures Normalize(s) == s
  {
  }

  /** Normalising a normalised string changes nothing. */
  lemma NormalizeIdempotent(s: string)
    ensures Normalize(Normalize(s)) == Normalize(s)
  {
    NormalFormFixed(Normalize(s));
  }

  /** The legal names are already in normal form, so a stored convention
      normalises to itself. */
  lemma NameIsNormal(c: Convention)
    ensures Normalize(c.Name()) == c.Name()
  {
    NormalFormFixed(c.Name());
  }

  /** The membership test `convention_ not in self.CONVENTIONS`. */
  function Parse(name: string): (r: Option<Convention>)
    ensures r.Some? <==> name in Names
    ensures r.Some? ==> r.value.Name() == name
  {
    if name == "zenith,azimuth" then Some(ZenithAzimuth)
    else if name == "azimuth,zenith" then Some(AzimuthZenith)
    else if name == "elevation,azimuth" then Some(ElevationAzimuth)
    else if name == "azimuth,elevation" then Some(AzimuthElevation)
    else None
  }

  /** The `convention` argument: a Python string, or any other object,
      known here by its `str()`, which is what the type error quotes. */
  datatype ConventionArg = Text(s: string) | NonText(text: string)

  /** The convention handling of `_HealPixSpherical.__init__`: type check,
      normalisation, membership. */
  function Resolve(arg: ConventionArg): (r: Result<Convention, Error>)
    ensures arg.NonText? ==> r == Failure(ConventionNotAString(arg.text))
    ensures arg.Text? ==> (r.Success? <==> Normalize(arg.s) in Names)
    ensures arg.Text? && r.Success? ==> r.value.Name() == Normalize(arg.s)
    ensures arg.Text? && r.Failure? ==> r.error == InvalidConvention(arg.s, Names)
  {
    match arg
    case NonText(text) => Failure(ConventionNotAString(text))
    case Text(s) =>
      match Parse(Normalize(s))
      case Some(c) => Success(c)
      case None => Failure(InvalidConvention(s, Names))
  }

  /** Giving a resolved convention's stored name back to the resolver
      yields the same convention. */
  lemma ResolveName(c: Convention)
    ensures Resolve(Text(c.Name())) == Success(c)
  {
    NameIsNormal(c);
    match c
    case ZenithAzimuth => assert Parse(c.Name()) == Some(c);
    case AzimuthZenith => assert Parse(c.Name()) == Some(c);
    case ElevationAzimuth => assert Parse(c.Name()) == Some(c);
    case AzimuthElevation => assert Parse(c.Name()) == Some(c);
  }

  /** A trailing space is dropped. */
  lemma RemoveTrailingSpace(a: string)
    requires ' ' !in a
    ensures RemoveSpaces(a + " ") == a
  {
    RemoveSpacesConcat(a, " ");
    assert RemoveSpaces(" ") == [];
  }

  /** Removing the spaces of `a + " " + b`, where neither part has one. */
  lemma RemoveOneSpace(a: string, b: string)
    requires ' ' !in a && ' ' !in b
    ensures RemoveSpaces(a + " " + b) == a + b
  {
    var c := a + " ";
    RemoveTrailingSpace(a);
    RemoveSpacesConcat(c, b);
  }

  lemma LowerMixedCase()
    ensures Lower("AZIMUTH,ZENITH") == "azimuth,zenith"
  {
  }

  /** Mixed case and spaces are accepted and normalised: the argument
      `"AZIMUTH, ZENITH"` resolves to `azimuth,zenith`. The literal is given
      as `a + " " + b`, with `a` and `b` fixed by the requires, only so that
      Dafny does not unfold the whole literal at once, which makes the proof
      too expensive. */
  lemma ResolveMixedCase(a: string, b: string)
    requires a == "AZIMUTH," && b == "ZENITH"
    ensures Resolve(Text(a + " " + b)) == Success(AzimuthZenith)
    ensures Resolve(Text(a + " " + b)).value.Name() == "azimuth,zenith"
  {
    RemoveOneSpace(a, b);
    LowerMixedCase();
    assert a + b == "AZIMUTH,ZENITH";
    assert Normalize(a + " " + b) == "azimuth,zenith";
    assert Parse("azimuth,zenith") == Some(AzimuthZenith);
  }

  /** Two arguments with the same normal form resolve alike. */
  lemma ResolveAgreesOnNormalForms(s: string, t: string)
    requires Normalize(s) == Normalize(t)
    ensures Resolve(Text(s)).Success? <==> Resolve(Text(t)).Success?
    ensures Resolve(Text(s)).Success? ==> Resolve(Text(s)) == Resolve(Text(t))
  {
  }

  /** An unknown name is a value error that enumerates the legal values. */
  lemma ResolveUnknown()
    ensures Resolve(Text("foo")) == Failure(InvalidConvention("foo", Names))
  {
    assert Normalize("foo") == "foo";
  }
}
