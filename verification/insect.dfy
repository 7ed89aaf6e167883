/** `models/Insect`: the record the structured-output service asks the model
    to fill, and its Bean Validation constraints (`@NotNull` on `isInsect`,
    `@Pattern("^https?://.*")` on `urlWikipedia`, `@Size(max = 100)` on the
    two names). Every field is a boxed type or a reference, so every field may
    be `null`. */
module Insects {
  import opened Base

  datatype Insect = Insect(
    isInsect: Option<bool>,
    urlWikipedia: Option<string>,
    commonName: Option<string>,
    scientificName: Option<string>,
    alternativeNames: Option<seq<string>>,
    conservationStatus: Option<string>,
    domain: Option<string>,
    kingdom: Option<string>,
    phylum: Option<string>,
    /** Serialised as `"class"`. */
    clazz: Option<string>,
    order: Option<string>,
    family: Option<string>,
    genus: Option<string>,
    species: Option<string>,
    geographicRange: Option<string>,
    habitatType: Option<string>,
    seasonalAppearance: Option<string>,
    size: Option<string>,
    colors: Option<seq<string>>,
    hasWings: Option<bool>,
    legCount: Option<int32>,
    distinctiveMarkings: Option<string>,
    diet: Option<string>,
    activityTime: Option<string>,
    lifespan: Option<string>,
    predators: Option<seq<string>>,
    defenseMechanisms: Option<seq<string>>,
    roleInEcosystem: Option<string>,
    interestingFacts: Option<seq<string>>,
    similarSpecies: Option<seq<string>>,
    populationTrend: Option<string>,
    threats: Option<seq<string>>,
    pestStatus: Option<string>,
    beneficialStatus: Option<string>,
    venomous: Option<bool>,
    toxicToHumans: Option<bool>)

  const MaxNameLength: nat := 100

  /** The characters `.` does not match without `DOTALL`: line feed, carriage
      return, next line, line separator, paragraph separator. */
  predicate IsLineTerminator(c: char) {
    c == '\n' || c == '\r' || c == '\U{0085}' || c == '\U{2028}' || c == '\U{2029}'
  }

  predicate StartsWith(s: string, prefix: string) {
    |prefix| <= |s| && s[..|prefix|] == prefix
  }

  /** `^https?://.*` matched against the whole value, as `@Pattern` does:
      `http://` or `https://`, then any run of characters other than line
      terminators. */
  predicate UrlMatches(s: string) {
    (StartsWith(s, "http://") && NoLineTerminatorFrom(s, 7))
    || (StartsWith(s, "https://") && NoLineTerminatorFrom(s, 8))
  }

  predicate NoLineTerminatorFrom(s: string, start: nat) {
    forall i :: start <= i < |s| ==> !IsLineTerminator(s[i])
  }

  /** The scheme prefix of a matching URL and the rest of its characters. */
  lemma UrlMatchesPrefix(s: string)
    requires UrlMatches(s)
    ensures StartsWith(s, "http://") || StartsWith(s, "https://")
  {
  }

  /** The pattern's scan, written out: check the prefix, then walk the rest
      looking for a line terminator. */
  method MatchUrl(s: string) returns (matched: bool)
    ensures matched <==> UrlMatches(s)
  {
    var start: nat;
    if |s| >= 7 && s[..7] == "http://" {
      start := 7;
    } else if |s| >= 8 && s[..8] == "https://" {
      start := 8;
    } else {
      return false;
    }
    var i := start;
    while i < |s|
      invariant start <= i <= |s|
      invariant forall j :: start <= j < i ==> !IsLineTerminator(s[j])
    {
      if IsLineTerminator(s[i]) {
        return false;
      }
      i := i + 1;
    }
    return true;
  }

  /** `String.length()`: UTF-16 code units, two for a character outside the
      Basic Multilingual Plane. */
  function Utf16Length(s: string): (n: nat)
    ensures |s| <= n <= 2 * |s|
    ensures (forall i :: 0 <= i < |s| ==> s[i] as int < 0x1_0000) ==> n == |s|
  {
    if |s| == 0 then 0
    else (if s[0] as int < 0x1_0000 then 1 else 2) + Utf16Length(s[1..])
  }

  /** `@Size(max = 100)`: `null` is valid. */
  predicate SizeOk(s: Option<string>) {
    s.None? || Utf16Length(s.value) <= MaxNameLength
  }

  /** All four constraints hold (`null` is valid for all but `@NotNull`). */
  predicate Valid(insect: Insect) {
    insect.isInsect.Some?
    && (insect.urlWikipedia.Some? ==> UrlMatches(insect.urlWikipedia.value))
    && SizeOk(insect.commonName)
    && SizeOk(insect.scientificName)
  }

  /** A constraint violation as the validator reports it. */
  datatype Violation = Violation(property: string, message: string)

  const IsInsectNull := Violation("isInsect", "must not be null")
  const BadUrl := Violation("urlWikipedia", "Must be a valid URL")
  const CommonNameTooLong := Violation("commonName", "Common name must not exceed 100 characters")
  const ScientificNameTooLong := Violation("scientificName", "Scientific name must not exceed 100 characters")

  /** The validator: every violated constraint, with its message. */
  function Validate(insect: Insect): (violations: set<Violation>)
    ensures violations <= {IsInsectNull, BadUrl, CommonNameTooLong, ScientificNameTooLong}
    ensures IsInsectNull in violations <==> insect.isInsect.None?
    ensures BadUrl in violations <==> insect.urlWikipedia.Some? && !UrlMatches(insect.urlWikipedia.value)
    ensures CommonNameTooLong in violations <==> !SizeOk(insect.commonName)
    ensures ScientificNameTooLong in violations <==> !SizeOk(insect.scientificName)
  {
    (if insect.isInsect.None? then {IsInsectNull} else {})
    + (if insect.urlWikipedia.Some? && !UrlMatches(insect.urlWikipedia.value) then {BadUrl} else {})
    + (if SizeOk(insect.commonName) then {} else {CommonNameTooLong})
    + (if SizeOk(insect.scientificName) then {} else {ScientificNameTooLong})
  }

  /** An insect is valid exactly when the validator reports nothing. */
  lemma ValidIffNoViolations(insect: Insect)
    ensures Valid(insect) <==> Validate(insect) == {}
  {
    if !Valid(insect) {
      if insect.urlWikipedia.Some? && !UrlMatches(insect.urlWikipedia.value) {
        assert BadUrl in Validate(insect);
      }
    }
  }

  /** The record with every field `null` except `isInsect`. */
  function Bare(isInsect: bool): (insect: Insect)
    ensures insect.isInsect == Some(isInsect)
    ensures insect.urlWikipedia.None? && insect.commonName.None? && insect.scientificName.None?
    ensures insect.alternativeNames.None? && insect.conservationStatus.None? && insect.domain.None?
    ensures insect.kingdom.None? && insect.phylum.None? && insect.clazz.None? && insect.order.None?
    ensures insect.family.None? && insect.genus.None? && insect.species.None?
    ensures insect.geographicRange.None? && insect.habitatType.None? && insect.seasonalAppearance.None?
    ensures insect.size.None? && insect.colors.None? && insect.hasWings.None? && insect.legCount.None?
    ensures insect.distinctiveMarkings.None? && insect.diet.None? && insect.activityTime.None?
    ensures insect.lifespan.None? && insect.predators.None? && insect.defenseMechanisms.None?
    ensures insect.roleInEcosystem.None? && insect.interestingFacts.None? && insect.similarSpecies.None?
    ensures insect.populationTrend.None? && insect.threats.None? && insect.pestStatus.None?
    ensures insect.beneficialStatus.None? && insect.venomous.None? && insect.toxicToHumans.None?
  {
    Insect(Some(isInsect), None, None, None, None, None, None, None, None, None, None, None,
           None, None, None, None, None, None, None, None, None, None, None, None, None, None,
           None, None, None, None, None, None, None, None, None, None)
  }

  /** `isInsect` is the only field that must be set. */
  lemma OnlyIsInsectRequired(b: bool)
    ensures Valid(Bare(b))
    ensures !Valid(Bare(b).(isInsect := None))
  {
  }

  /** Unlike the DTO's primitives, `hasWings`, `legCount`, `venomous` and
      `toxicToHumans` may be `null` in a valid record. */
  lemma BoxedFieldsMayBeNull(insect: Insect)
    requires Valid(insect)
    ensures Valid(insect.(hasWings := None, legCount := None, venomous := None, toxicToHumans := None))
  {
  }

  /** A name of 100 characters is accepted, one of 101 is not, and a single
      character beyond the Basic Multilingual Plane counts twice. */
  lemma NameLengthBoundary(name: string)
    requires forall i :: 0 <= i < |name| ==> name[i] as int < 0x1_0000
    ensures |name| <= 100 ==> SizeOk(Some(name))
    ensures |name| > 100 ==> !SizeOk(Some(name))
    ensures Utf16Length(['\U{1F41E}']) == 2
  {
  }

  /** Examples of the URL pattern: both schemes match, a line break after
      the scheme does not, and neither does another scheme. */
  lemma UrlExamples()
    ensures UrlMatches("https://a.b")
    ensures UrlMatches("http://")
    ensures !UrlMatches("https://a\nb")
    ensures !UrlMatches("ftp://x")
  {
    assert "https://a.b"[..8] == "https://";
    assert "http://"[..7] == "http://";
    assert "https://a\nb"[..7] != "http://" by {
      assert "https://a\nb"[..7][4] == 's';
    }
    assert IsLineTerminator("https://a\nb"[9]);
    assert "ftp://x"[..7][0] == 'f';
  }
}
