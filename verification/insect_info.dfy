/** `InsectInfoDto`: the record the older revision reads the model's answer
    into, and the JSON object Jackson writes for it. Every field is public;
    its JSON key is its name, except `clazz`, which `@JsonProperty("class")`
    renames. */
module InsectInfo {
  import opened Base
  import opened Json

  /** `String` and `List<String>` fields may be `null`; `has_wings` and
      `leg_count` are primitives and always hold a value. */
  datatype InsectInfoDto = InsectInfoDto(
    common_name: Option<string>,
    scientific_name: Option<string>,
    alternative_names: Option<seq<string>>,
    domain: Option<string>,
    kingdom: Option<string>,
    phylum: Option<string>,
    clazz: Option<string>,
    order: Option<string>,
    family: Option<string>,
    genus: Option<string>,
    species: Option<string>,
    geographic_range: Option<string>,
    habitat_type: Option<string>,
    seasonal_appearance: Option<string>,
    size: Option<string>,
    colors: Option<seq<string>>,
    has_wings: bool,
    leg_count: int32,
    distinctive_markings: Option<string>,
    diet: Option<string>,
    activity_time: Option<string>,
    lifespan: Option<string>,
    predators: Option<seq<string>>,
    defense_mechanisms: Option<seq<string>>,
    role_in_ecosystem: Option<string>,
    interesting_facts: Option<seq<string>>,
    similar_species: Option<seq<string>>,
    conservation_status: Option<string>,
    url_wikipedia: Option<string>)

  /** The record's fields, one constructor each, in declaration order. */
  datatype Field =
    | CommonName
    | ScientificName
    | AlternativeNames
    | Domain
    | Kingdom
    | Phylum
    | Clazz
    | Order
    | Family
    | Genus
    | Species
    | GeographicRange
    | HabitatType
    | SeasonalAppearance
    | Size
    | Colors
    | HasWings
    | LegCount
    | DistinctiveMarkings
    | Diet
    | ActivityTime
    | Lifespan
    | Predators
    | DefenseMechanisms
    | RoleInEcosystem
    | InterestingFacts
    | SimilarSpecies
    | ConservationStatus
    | UrlWikipedia

  /** The Java type of a field. */
  datatype FieldShape = StringField | ListField | BoolField | IntField

  function Shape(f: Field): FieldShape {
    match f
    case CommonName => StringField
    case ScientificName => StringField
    case AlternativeNames => ListField
    case Domain => StringField
    case Kingdom => StringField
    case Phylum => StringField
    case Clazz => StringField
    case Order => StringField
    case Family => StringField
    case Genus => StringField
    case Species => StringField
    case GeographicRange => StringField
    case HabitatType => StringField
    case SeasonalAppearance => StringField
    case Size => StringField
    case Colors => ListField
    case HasWings => BoolField
    case LegCount => IntField
    case DistinctiveMarkings => StringField
    case Diet => StringField
    case ActivityTime => StringField
    case Lifespan => StringField
    case Predators => ListField
    case DefenseMechanisms => ListField
    case RoleInEcosystem => StringField
    case InterestingFacts => ListField
    case SimilarSpecies => ListField
    case ConservationStatus => StringField
    case UrlWikipedia => StringField
  }

  const FieldCount := 29

  /** The field declared at a position. */
  function FieldAt(i: nat): Field
    requires i < FieldCount
  {
    match i
    case 0 => CommonName
    case 1 => ScientificName
    case 2 => AlternativeNames
    case 3 => Domain
    case 4 => Kingdom
    case 5 => Phylum
    case 6 => Clazz
    case 7 => Order
    case 8 => Family
    case 9 => Genus
    case 10 => Species
    case 11 => GeographicRange
    case 12 => HabitatType
    case 13 => SeasonalAppearance
    case 14 => Size
    case 15 => Colors
    case 16 => HasWings
    case 17 => LegCount
    case 18 => DistinctiveMarkings
    case 19 => Diet
    case 20 => ActivityTime
    case 21 => Lifespan
    case 22 => Predators
    case 23 => DefenseMechanisms
    case 24 => RoleInEcosystem
    case 25 => InterestingFacts
    case 26 => SimilarSpecies
    case 27 => ConservationStatus
    case _ => UrlWikipedia
  }

  /** Where a field is declared; every field has a position. */
  function Position(f: Field): (i: nat)
    ensures i < FieldCount && FieldAt(i) == f
  {
    match f
    case CommonName => 0
    case ScientificName => 1
    case AlternativeNames => 2
    case Domain => 3
    case Kingdom => 4
    case Phylum => 5
    case Clazz => 6
    case Order => 7
    case Family => 8
    case Genus => 9
    case Species => 10
    case GeographicRange => 11
    case HabitatType => 12
    case SeasonalAppearance => 13
    case Size => 14
    case Colors => 15
    case HasWings => 16
    case LegCount => 17
    case DistinctiveMarkings => 18
    case Diet => 19
    case ActivityTime => 20
    case Lifespan => 21
    case Predators => 22
    case DefenseMechanisms => 23
    case RoleInEcosystem => 24
    case InterestingFacts => 25
    case SimilarSpecies => 26
    case ConservationStatus => 27
    case UrlWikipedia => 28
  }

  lemma PositionOfFieldAt(i: nat)
    requires i < FieldCount
    ensures Position(FieldAt(i)) == i
  {
  }

  /** The JSON keys in declaration order: each field's name, except that
      `clazz` is written `class`. */
  const JsonKeys: seq<string> := [
    "common_name", "scientific_name", "alternative_names", "domain", "kingdom",
    "phylum", "class", "order", "family", "genus",
    "species", "geographic_range", "habitat_type", "seasonal_appearance", "size",
    "colors", "has_wings", "leg_count", "distinctive_markings", "diet",
    "activity_time", "lifespan", "predators", "defense_mechanisms", "role_in_ecosystem",
    "interesting_facts", "similar_species", "conservation_status", "url_wikipedia"
  ]

  /** The JSON key Jackson uses for a field. */
  function Key(f: Field): string {
    JsonKeys[Position(f)]
  }

  /** No key is used twice. */
  lemma JsonKeysDistinct()
    ensures |JsonKeys| == FieldCount && Distinct(JsonKeys)
  {
  }

  /** Two fields with the same key are the same field. */
  lemma KeyInjective(f: Field, g: Field)
    ensures Key(f) == Key(g) <==> f == g
  {
    JsonKeysDistinct();
  }

  /** Java's reserved word is the only renamed field. */
  lemma RenamedField()
    ensures Key(Clazz) == "class" && Key(CommonName) == "common_name"
    ensures Key(HasWings) == "has_wings" && Key(LegCount) == "leg_count"
  {
  }

  /** A `String` field's content. */
  function StringOf(d: InsectInfoDto, f: Field): Option<string>
    requires Shape(f) == StringField
  {
    match f
    case CommonName => d.common_name
    case ScientificName => d.scientific_name
    case Domain => d.domain
    case Kingdom => d.kingdom
    case Phylum => d.phylum
    case Clazz => d.clazz
    case Order => d.order
    case Family => d.family
    case Genus => d.genus
    case Species => d.species
    case GeographicRange => d.geographic_range
    case HabitatType => d.habitat_type
    case SeasonalAppearance => d.seasonal_appearance
    case Size => d.size
    case DistinctiveMarkings => d.distinctive_markings
    case Diet => d.diet
    case ActivityTime => d.activity_time
    case Lifespan => d.lifespan
    case RoleInEcosystem => d.role_in_ecosystem
    case ConservationStatus => d.conservation_status
    case UrlWikipedia => d.url_wikipedia
    case _ => assert false; None
  }

  /** A `List<String>` field's content. */
  function ListOf(d: InsectInfoDto, f: Field): Option<seq<string>>
    requires Shape(f) == ListField
  {
    match f
    case AlternativeNames => d.alternative_names
    case Colors => d.colors
    case Predators => d.predators
    case DefenseMechanisms => d.defense_mechanisms
    case InterestingFacts => d.interesting_facts
    case SimilarSpecies => d.similar_species
    case _ => assert false; None
  }

  function StringValue(s: Option<string>): (v: JsonValue)
    ensures v.JNull? <==> s.None?
    ensures s.Some? ==> v == JString(s.value)
  {
    match s
    case None => JNull
    case Some(x) => JString(x)
  }

  function ListValue(l: Option<seq<string>>): (v: JsonValue)
    ensures v.JNull? <==> l.None?
    ensures l.Some? ==> v.JArray? && |v.items| == |l.value|
                        && forall i :: 0 <= i < |l.value| ==> v.items[i] == JString(l.value[i])
  {
    match l
    case None => JNull
    case Some(xs) => JArray(seq(|xs|, i requires 0 <= i < |xs| => JString(xs[i])))
  }

  /** The JSON value Jackson writes for one field. */
  function Value(d: InsectInfoDto, f: Field): JsonValue {
    match Shape(f)
    case StringField => StringValue(StringOf(d, f))
    case ListField => ListValue(ListOf(d, f))
    case BoolField => JBool(d.has_wings)
    case IntField => JInt(d.leg_count)
  }

  /** The members of the object Jackson writes, in declaration order. */
  function Members(d: InsectInfoDto): (ms: seq<(string, JsonValue)>)
    ensures KeysOf(ms) == JsonKeys
  {
    seq(FieldCount, i requires 0 <= i < FieldCount => (JsonKeys[i], Value(d, FieldAt(i))))
  }

  /** `objectMapper.writeValueAsString(dto)`, before rendering to text: one
      member per field and no other. */
  function ToJson(d: InsectInfoDto): (m: map<string, JsonValue>)
    ensures m.Keys == Elements(JsonKeys)
  {
    MapOf(Members(d))
  }

  /** Each field's value sits under its own key. */
  lemma ToJsonLookup(d: InsectInfoDto, f: Field)
    ensures Key(f) in ToJson(d) && ToJson(d)[Key(f)] == Value(d, f)
  {
    JsonKeysDistinct();
    MapOfLookup(Members(d), Position(f));
  }

  /** Whether a JSON value can be bound to a field of the given type: a
      `String` or a `List<String>` also takes `null`, a primitive does not,
      and an `int` takes only a 32-bit number. */
  predicate Fits(v: JsonValue, shape: FieldShape) {
    match shape
    case StringField => v.JNull? || v.JString?
    case ListField => v.JNull? || (v.JArray? && forall i :: 0 <= i < |v.items| ==> v.items[i].JString?)
    case BoolField => v.JBool?
    case IntField => v.JInt? && -0x8000_0000 <= v.number < 0x8000_0000
  }

  /** Whatever a field is written as, it can be bound to again. */
  lemma ValueFits(d: InsectInfoDto, f: Field)
    ensures Fits(Value(d, f), Shape(f))
  {
  }

  /** Writing loses nothing: two records written alike agree on the field. */
  lemma {:induction false} ValueInjective(d: InsectInfoDto, e: InsectInfoDto, f: Field)
    requires Value(d, f) == Value(e, f)
    ensures Shape(f) == StringField ==> StringOf(d, f) == StringOf(e, f)
    ensures Shape(f) == ListField ==> ListOf(d, f) == ListOf(e, f)
    ensures Shape(f) == BoolField ==> d.has_wings == e.has_wings
    ensures Shape(f) == IntField ==> d.leg_count == e.leg_count
  {
    if Shape(f) == ListField && ListOf(d, f).Some? {
      var xs, ys := ListOf(d, f).value, ListOf(e, f).value;
      assert forall i :: 0 <= i < |xs| ==> ListValue(Some(xs)).items[i] == JString(xs[i]);
      assert xs == ys;
    }
  }

  /** Two records whose JSON objects are equal agree field by field. */
  lemma ToJsonInjective(d: InsectInfoDto, e: InsectInfoDto, f: Field)
    requires ToJson(d) == ToJson(e)
    ensures Value(d, f) == Value(e, f)
    ensures Shape(f) == StringField ==> StringOf(d, f) == StringOf(e, f)
    ensures Shape(f) == ListField ==> ListOf(d, f) == ListOf(e, f)
  {
    ToJsonLookup(d, f);
    ToJsonLookup(e, f);
    ValueInjective(d, e, f);
  }

  /** No reference field is `null`. */
  predicate FullyPopulated(d: InsectInfoDto) {
    forall f :: Value(d, f) != JNull
  }

  /** Only reference fields can be `null`: the two primitives never are. */
  lemma PrimitivesNeverNull(d: InsectInfoDto)
    ensures Value(d, HasWings) != JNull && Value(d, LegCount) != JNull
  {
  }
}
