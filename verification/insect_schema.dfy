/** `OpenAiService.getInsectInfoSchema` and the `json_schema` response
    format that wraps it: the structured-output contract the older revision
    sends with every request, and its agreement with `InsectInfoDto`. */
module InsectInfoSchema {
  import opened Base
  import opened Json
  import opened InsectInfo

  /** The `type` of a property; an array names the type of its items. */
  datatype SchemaType = StringType | BooleanType | IntegerType | ArrayType(items: SchemaType)

  datatype Property = Property(kind: SchemaType, description: string)

  /** The property names, in the order the method puts them. */
  const PropertyNames: seq<string> := [
    "common_name", "scientific_name", "alternative_names", "domain", "kingdom",
    "phylum", "class", "order", "family", "genus",
    "species", "geographic_range", "habitat_type", "seasonal_appearance", "size",
    "colors", "has_wings", "leg_count", "distinctive_markings", "diet",
    "activity_time", "lifespan", "predators", "defense_mechanisms", "role_in_ecosystem",
    "interesting_facts", "similar_species", "conservation_status", "url_wikipedia"
  ]

  /** The `type` put under the `i`-th name. */
  function KindAt(i: nat): SchemaType
    requires i < |PropertyNames|
  {
    match i
    case 0 => StringType
    case 1 => StringType
    case 2 => ArrayType(StringType)
    case 3 => StringType
    case 4 => StringType
    case 5 => StringType
    case 6 => StringType
    case 7 => StringType
    case 8 => StringType
    case 9 => StringType
    case 10 => StringType
    case 11 => StringType
    case 12 => StringType
    case 13 => StringType
    case 14 => StringType
    case 15 => ArrayType(StringType)
    case 16 => BooleanType
    case 17 => IntegerType
    case 18 => StringType
    case 19 => StringType
    case 20 => StringType
    case 21 => StringType
    case 22 => ArrayType(StringType)
    case 23 => ArrayType(StringType)
    case 24 => StringType
    case 25 => ArrayType(StringType)
    case 26 => ArrayType(StringType)
    case 27 => StringType
    case _ => StringType
  }

  /** The `description` put under the `i`-th name. */
  function DescriptionAt(i: nat): string
    requires i < |PropertyNames|
  {
    match i
    case 0 => "The common name of the insect."
    case 1 => "The scientific name of the insect."
    case 2 => "List of alternative names for the insect."
    case 3 => "The domain classification of the insect."
    case 4 => "The kingdom classification of the insect."
    case 5 => "The phylum classification of the insect."
    case 6 => "The class classification of the insect."
    case 7 => "The order classification of the insect."
    case 8 => "The family classification of the insect."
    case 9 => "The genus classification of the insect."
    case 10 => "The species classification of the insect."
    case 11 => "The geographic range of the insect. (continents, countries, specific regions, etc.)"
    case 12 => "The habitat type where the insect is found. (forest, desert, freshwater, urban, etc.)"
    case 13 => "The months or seasons when the insect is active."
    case 14 => "Size description of the insect."
    case 15 => "An array of colors representing the insect's coloration."
    case 16 => "Indicates if the insect has wings."
    case 17 => "Number of legs the insect has."
    case 18 => "Description of distinctive markings on the insect."
    case 19 => "The dietary classification of the insect."
    case 20 => "The time of day the insect is most active."
    case 21 => "The typical lifespan of the insect."
    case 22 => "List of predators that feed on this insect."
    case 23 => "Methods the insect uses to defend itself."
    case 24 => "The role the insect plays in its ecosystem."
    case 25 => "A collection of interesting facts about the insect."
    case 26 => "List of species that are similar to this insect."
    case 27 => "The conservation status of the insect."
    case _ => "A URL to the Wikipedia page of the insect."
  }

  function PropertyAt(i: nat): Property
    requires i < |PropertyNames|
  {
    Property(KindAt(i), DescriptionAt(i))
  }

  /** The `properties` map: the names with their types and descriptions. */
  function Properties(): map<string, Property> {
    MapOf(seq(|PropertyNames|, i requires 0 <= i < |PropertyNames| => (PropertyNames[i], PropertyAt(i))))
  }

  /** The `required` list, exactly as the method writes it. */
  const Required: seq<string> := [
    "common_name", "scientific_name", "alternative_names", "domain", "kingdom",
    "phylum", "class", "order", "family", "genus",
    "species", "geographic_range", "habitat_type", "seasonal_appearance", "size",
    "colors", "has_wings", "leg_count", "distinctive_markings", "diet",
    "activity_time", "lifespan", "predators", "defense_mechanisms", "role_in_ecosystem",
    "interesting_facts", "similar_species", "conservation_status", "url_wikipedia"
  ]

  /** A JSON Schema object type. */
  datatype ObjectSchema = ObjectSchema(
    schemaType: string,
    properties: map<string, Property>,
    required: seq<string>,
    additionalProperties: bool)

  /** The `json_schema` member of the response format. */
  datatype JsonSchemaFormat = JsonSchemaFormat(name: string, strict: bool, schema: ObjectSchema)

  /** `getInsectInfoSchema()`. */
  function GetInsectInfoSchema(): (s: ObjectSchema)
    ensures s.schemaType == "object" && !s.additionalProperties
  {
    ObjectSchema("object", Properties(), Required, false)
  }

  /** The wrapper built around it in `identifyInsect`. */
  function InsectInfoFormat(): (f: JsonSchemaFormat)
    ensures f.name == "insect_info" && f.strict
    ensures f.schema == GetInsectInfoSchema()
  {
    JsonSchemaFormat("insect_info", true, GetInsectInfoSchema())
  }

  /** The schema type a DTO field's Java type corresponds to. */
  function TypeOf(shape: FieldShape): SchemaType {
    match shape
    case StringField => StringType
    case ListField => ArrayType(StringType)
    case BoolField => BooleanType
    case IntField => IntegerType
  }

  /** The names are put, and listed as required, in the order the record
      declares its fields, under the same keys. */
  lemma NamesAreKeys()
    ensures PropertyNames == JsonKeys && Required == JsonKeys
  {
  }

  /** The entries of the `properties` map, in order. */
  lemma PropertyEntries()
    ensures Properties().Keys == Elements(PropertyNames)
  {
    var entries := seq(|PropertyNames|, i requires 0 <= i < |PropertyNames| => (PropertyNames[i], PropertyAt(i)));
    assert KeysOf(entries) == PropertyNames;
  }

  /** Each name finds the type and description put under it. */
  lemma PropertyLookup(i: nat)
    requires i < |PropertyNames|
    ensures PropertyNames[i] in Properties() && Properties()[PropertyNames[i]] == PropertyAt(i)
  {
    var entries := seq(|PropertyNames|, i requires 0 <= i < |PropertyNames| => (PropertyNames[i], PropertyAt(i)));
    assert KeysOf(entries) == PropertyNames;
    NamesAreKeys();
    JsonKeysDistinct();
    MapOfLookup(entries, i);
  }

  /** `required` names every property once and nothing else, so with
      `additionalProperties` false the model must fill in all 29. */
  lemma RequiredIsProperties()
    ensures |GetInsectInfoSchema().required| == 29
    ensures Distinct(GetInsectInfoSchema().required)
    ensures Elements(GetInsectInfoSchema().required) == GetInsectInfoSchema().properties.Keys
  {
    NamesAreKeys();
    JsonKeysDistinct();
    PropertyEntries();
  }

  /** The type put at a position is the type of the field declared there. */
  lemma KindAtPosition(f: Field)
    ensures KindAt(Position(f)) == TypeOf(Shape(f))
  {
  }

  /** The schema and the record agree field by field: the field's key is a
      property whose type is the field's type. */
  lemma PropertyMatchesField(f: Field)
    ensures Key(f) in Properties() && Properties()[Key(f)].kind == TypeOf(Shape(f))
  {
    NamesAreKeys();
    PropertyLookup(Position(f));
    KindAtPosition(f);
  }

  /** Every property belongs to a field. */
  lemma PropertyHasField(k: string)
    requires k in Properties()
    ensures exists f :: Key(f) == k
  {
    PropertyEntries();
    NamesAreKeys();
    var i :| 0 <= i < |PropertyNames| && PropertyNames[i] == k;
    PositionOfFieldAt(i);
    assert Key(FieldAt(i)) == k;
  }

  /** The six `List<String>` fields. */
  const ListFieldSet: set<Field> :=
    {AlternativeNames, Colors, Predators, DefenseMechanisms, InterestingFacts, SimilarSpecies}

  lemma ListFields(f: Field)
    ensures Shape(f) == ListField <==> f in ListFieldSet
  {
  }

  /** The keys of the six, as the schema spells them. */
  lemma ListFieldKeys()
    ensures Key(AlternativeNames) == "alternative_names" && Key(Colors) == "colors"
    ensures Key(Predators) == "predators" && Key(DefenseMechanisms) == "defense_mechanisms"
    ensures Key(InterestingFacts) == "interesting_facts" && Key(SimilarSpecies) == "similar_species"
  {
    // Each half reads the 29-name literal on its own, which keeps the proof small.
    EarlyListFieldKeys();
    LateListFieldKeys();
  }

  lemma EarlyListFieldKeys()
    ensures Key(AlternativeNames) == "alternative_names" && Key(Colors) == "colors"
    ensures Key(Predators) == "predators"
  {
  }

  lemma LateListFieldKeys()
    ensures Key(DefenseMechanisms) == "defense_mechanisms" && Key(InterestingFacts) == "interesting_facts"
    ensures Key(SimilarSpecies) == "similar_species"
  {
  }

  /** Exactly the six list fields are arrays in the schema, and each holds
      strings. */
  lemma ArrayProperties(k: string)
    requires k in Properties()
    ensures Properties()[k].kind.ArrayType? ==> Properties()[k].kind.items == StringType
    ensures Properties()[k].kind.ArrayType? <==> exists f :: f in ListFieldSet && Key(f) == k
  {
    PropertyHasField(k);
    var f :| Key(f) == k;
    PropertyMatchesField(f);
    ListFields(f);
    forall g | g in ListFieldSet && Key(g) == k ensures f == g {
      KeyInjective(f, g);
    }
  }

  /** A JSON value of the given schema type; in strict mode no type admits
      `null`. */
  predicate Conforms(v: JsonValue, t: SchemaType) {
    match t
    case StringType => v.JString?
    case BooleanType => v.JBool?
    case IntegerType => v.JInt?
    case ArrayType(it) => v.JArray? && forall i :: 0 <= i < |v.items| ==> Conforms(v.items[i], it)
  }

  /** An object the schema accepts: every required key present, no key
      outside `properties`, every value of its property's type. */
  predicate ObjectConforms(m: map<string, JsonValue>, s: ObjectSchema) {
    && (forall i :: 0 <= i < |s.required| ==> s.required[i] in m)
    && (!s.additionalProperties ==> m.Keys <= s.properties.Keys)
    && (forall k :: k in m && k in s.properties ==> Conforms(m[k], s.properties[k].kind))
  }

  /** A field's value has the schema's type exactly when it is not `null`. */
  lemma FieldConforms(d: InsectInfoDto, f: Field)
    ensures Conforms(Value(d, f), TypeOf(Shape(f))) <==> Value(d, f) != JNull
  {
  }

  /** The object written for a record has exactly the schema's keys. */
  lemma ToJsonKeys(d: InsectInfoDto)
    ensures ToJson(d).Keys == GetInsectInfoSchema().properties.Keys
    ensures forall i :: 0 <= i < |Required| ==> Required[i] in ToJson(d)
  {
    NamesAreKeys();
    PropertyEntries();
  }

  /** A fully populated record is written as an answer the schema allows. */
  lemma PopulatedConforms(d: InsectInfoDto)
    requires FullyPopulated(d)
    ensures ObjectConforms(ToJson(d), GetInsectInfoSchema())
  {
    var s, m := GetInsectInfoSchema(), ToJson(d);
    ToJsonKeys(d);
    forall k | k in m && k in s.properties ensures Conforms(m[k], s.properties[k].kind) {
      PropertyHasField(k);
      var f :| Key(f) == k;
      PropertyMatchesField(f);
      ToJsonLookup(d, f);
      FieldConforms(d, f);
    }
  }

  /** A record written as an answer the schema allows has no `null` field. */
  lemma ConformsPopulated(d: InsectInfoDto)
    requires ObjectConforms(ToJson(d), GetInsectInfoSchema())
    ensures FullyPopulated(d)
  {
    forall f ensures Value(d, f) != JNull {
      PropertyMatchesField(f);
      ToJsonLookup(d, f);
      FieldConforms(d, f);
    }
  }

  /** What Jackson writes for a record is an answer the schema allows
      exactly when no reference field of the record is `null`. */
  lemma ToJsonConformsIff(d: InsectInfoDto)
    ensures ObjectConforms(ToJson(d), GetInsectInfoSchema()) <==> FullyPopulated(d)
  {
    if FullyPopulated(d) {
      PopulatedConforms(d);
    }
    if ObjectConforms(ToJson(d), GetInsectInfoSchema()) {
      ConformsPopulated(d);
    }
  }

  /** An answer of the schema's type can be bound to the field, provided an
      integer fits in 32 bits: the schema does not bound `leg_count`. */
  lemma ConformingValueFits(v: JsonValue, f: Field)
    requires Conforms(v, TypeOf(Shape(f)))
    ensures Fits(v, Shape(f)) <==> (v.JInt? ==> -0x8000_0000 <= v.number < 0x8000_0000)
  {
  }
}
