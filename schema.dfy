/**
 * The lead record: the collection's JSON-schema validator (a constant) and
 * `validateLead`, which normalises an incoming lead before it is stored. Input
 * values are JavaScript values; the two `new Date()` timestamps are parameters.
 */
module Schema {
  import opened Text

  /** The JavaScript values a lead's properties can hold. `Obj` is any other object or array. */
  datatype JsValue =
    | Undefined
    | Null
    | Bool(b: bool)
    | Num(n: int)
    | NaN
    | Str(s: string)
    | Date(millis: int)
    | Obj(ref: nat)

  /** JavaScript's truthiness. */
  predicate Truthy(v: JsValue) {
    match v
    case Undefined => false
    case Null => false
    case Bool(b) => b
    case Num(n) => n != 0
    case NaN => false
    case Str(s) => s != ""
    case Date(_) => true
    case Obj(_) => true
  }

  /**
   * Property names: the seven the lead schema knows, and any other name. Distinct
   * constructors stand for distinct names.
   */
  datatype Key =
    | NameKey | RatingKey | AddressKey | PhoneNumberKey | WebsiteLinkKey | CreatedAtKey | UpdatedAtKey
    | OtherKey(name: string)

  /** An incoming lead: its properties by name. A missing property reads as `undefined`. */
  type LeadData = map<Key, JsValue>

  function Get(data: LeadData, key: Key): JsValue {
    if key in data then data[key] else Undefined
  }

  /** The object `validateLead` returns: exactly these seven properties. */
  datatype Lead = Lead(
    name: string,
    rating: JsValue,
    address: JsValue,
    phoneNumber: JsValue,
    websiteLink: JsValue,
    createdAt: int,
    updatedAt: int)

  datatype Validation = Valid(lead: Lead) | Invalid(message: string)

  const NameRequired := "Name is required and must be a non-empty string"

  /** The optional properties, copied when truthy and nulled otherwise. */
  predicate IsOptional(key: Key) {
    key == RatingKey || key == AddressKey || key == PhoneNumberKey || key == WebsiteLinkKey
  }

  /** `v || null` */
  function OrNull(v: JsValue): JsValue {
    if Truthy(v) then v else Null
  }

  /** The name is usable: a string that is not blank once trimmed. */
  predicate HasName(data: LeadData) {
    Get(data, NameKey).Str? && Trim(Get(data, NameKey).s) != ""
  }

  /**
   * `validateLead(leadData)`, with `createdAt` and `updatedAt` the instants the two
   * `new Date()` calls return.
   */
  function ValidateLead(data: LeadData, createdAt: int, updatedAt: int): (r: Validation)
    ensures r.Invalid? <==> !HasName(data)
    ensures r.Invalid? ==> r.message == NameRequired
    ensures r.Valid? ==>
              var name := r.lead.name;
              && name == Trim(Get(data, NameKey).s)
              && name != [] && !IsWhitespace(name[0]) && !IsWhitespace(name[|name| - 1])
  {
    var name := Get(data, NameKey);
    if !Truthy(name) || !name.Str? || Trim(name.s) == "" then
      Invalid(NameRequired)
    else
      Valid(Lead(
        Trim(name.s),
        OrNull(Get(data, RatingKey)),
        OrNull(Get(data, AddressKey)),
        OrNull(Get(data, PhoneNumberKey)),
        OrNull(Get(data, WebsiteLinkKey)),
        createdAt,
        updatedAt))
  }

  /** The lead as the document stored in the collection. */
  function ToDocument(lead: Lead): map<Key, JsValue> {
    map[
      NameKey := Str(lead.name),
      RatingKey := lead.rating,
      AddressKey := lead.address,
      PhoneNumberKey := lead.phoneNumber,
      WebsiteLinkKey := lead.websiteLink,
      CreatedAtKey := Date(lead.createdAt),
      UpdatedAtKey := Date(lead.updatedAt)]
  }

  /** The stored document has exactly the seven properties of a lead. */
  lemma DocumentProperties(lead: Lead)
    ensures ToDocument(lead).Keys
            == {NameKey, RatingKey, AddressKey, PhoneNumberKey, WebsiteLinkKey, CreatedAtKey, UpdatedAtKey}
  {
  }

  /** Every optional property of a valid lead is the input's value when truthy and `null` otherwise. */
  lemma OptionalFieldsNormalised(data: LeadData, createdAt: int, updatedAt: int, key: Key)
    requires ValidateLead(data, createdAt, updatedAt).Valid?
    requires IsOptional(key)
    ensures var doc := ToDocument(ValidateLead(data, createdAt, updatedAt).lead);
      && (Truthy(Get(data, key)) ==> doc[key] == Get(data, key))
      && (!Truthy(Get(data, key)) ==> doc[key] == Null)
  {
  }

  /** Only the five known properties matter: any other input property is discarded. */
  lemma OtherPropertiesIgnored(d1: LeadData, d2: LeadData, createdAt: int, updatedAt: int)
    requires Get(d1, NameKey) == Get(d2, NameKey)
    requires forall key :: IsOptional(key) ==> Get(d1, key) == Get(d2, key)
    ensures ValidateLead(d1, createdAt, updatedAt) == ValidateLead(d2, createdAt, updatedAt)
  {
  }

  /** Validating a stored lead again keeps its name and optional properties; only the timestamps change. */
  lemma RevalidationIsStable(data: LeadData, c1: int, u1: int, c2: int, u2: int)
    requires ValidateLead(data, c1, u1).Valid?
    ensures var lead := ValidateLead(data, c1, u1).lead;
      ValidateLead(ToDocument(lead), c2, u2) == Valid(lead.(createdAt := c2, updatedAt := u2))
  {
    var lead := ValidateLead(data, c1, u1).lead;
    TrimIdempotent(Get(data, NameKey).s);
    assert Get(ToDocument(lead), NameKey) == Str(lead.name);
  }

  /** The BSON types of the collection's validator. */
  datatype BsonType = BsonString | BsonNull | BsonDate | BsonObject | BsonOther

  /** A property of the `$jsonSchema`: the types it may have. */
  datatype Property = Property(bsonTypes: set<BsonType>, description: string)

  datatype JsonSchema = JsonSchema(bsonType: BsonType, required: seq<Key>, properties: map<Key, Property>)

  /** `leadSchema.validator.$jsonSchema` */
  const LeadSchema := JsonSchema(
    BsonObject,
    [NameKey],
    map[
      NameKey := Property({BsonString}, "Name is required"),
      RatingKey := Property({BsonString, BsonNull}, "Rating of the lead"),
      AddressKey := Property({BsonString, BsonNull}, "Address of the lead"),
      PhoneNumberKey := Property({BsonString, BsonNull}, "Phone number of the lead"),
      WebsiteLinkKey := Property({BsonString, BsonNull}, "Website link of the lead"),
      CreatedAtKey := Property({BsonDate}, "Timestamp when the lead was created"),
      UpdatedAtKey := Property({BsonDate}, "Timestamp when the lead was last updated")])

  /** The BSON type a JavaScript value is stored as. */
  function BsonTypeOf(v: JsValue): BsonType {
    match v
    case Str(_) => BsonString
    case Null => BsonNull
    case Date(_) => BsonDate
    case Obj(_) => BsonObject
    case _ => BsonOther
  }

  /** Property `k` of the document is absent, not described by the schema, or of an allowed type. */
  predicate PropertyConforms(doc: map<Key, JsValue>, schema: JsonSchema, k: Key) {
    k in doc && k in schema.properties ==> BsonTypeOf(doc[k]) in schema.properties[k].bsonTypes
  }

  /** A document passes the validator: required properties present, described properties well typed. */
  ghost predicate Conforms(doc: map<Key, JsValue>, schema: JsonSchema) {
    && (forall k :: k in schema.required ==> k in doc)
    && (forall k :: PropertyConforms(doc, schema, k))
  }

  /** A stored optional property has one of the types `["string", "null"]`. */
  predicate StringOrNull(v: JsValue) {
    v.Str? || v.Null?
  }

  /** The types `leadSchema` allows for each property it lists. */
  lemma LeadSchemaTypes()
    ensures LeadSchema.properties.Keys
            == {NameKey, RatingKey, AddressKey, PhoneNumberKey, WebsiteLinkKey, CreatedAtKey, UpdatedAtKey}
    ensures LeadSchema.properties[NameKey].bsonTypes == {BsonString}
    ensures forall k :: IsOptional(k) ==> LeadSchema.properties[k].bsonTypes == {BsonString, BsonNull}
    ensures LeadSchema.properties[CreatedAtKey].bsonTypes == {BsonDate}
    ensures LeadSchema.properties[UpdatedAtKey].bsonTypes == {BsonDate}
  {
  }

  /** A stored lead whose optional properties are strings or null passes the validator. */
  lemma DocumentConforms(lead: Lead)
    requires StringOrNull(lead.rating) && StringOrNull(lead.address)
    requires StringOrNull(lead.phoneNumber) && StringOrNull(lead.websiteLink)
    ensures Conforms(ToDocument(lead), LeadSchema)
  {
    LeadSchemaTypes();
    forall k
      ensures PropertyConforms(ToDocument(lead), LeadSchema, k)
    {
      match k
      case NameKey =>
      case RatingKey =>
      case AddressKey =>
      case PhoneNumberKey =>
      case WebsiteLinkKey =>
      case CreatedAtKey =>
      case UpdatedAtKey =>
      case OtherKey(_) =>
    }
  }

  /** A stored lead that passes the validator has strings or null in its optional properties. */
  lemma ConformingDocument(lead: Lead)
    requires Conforms(ToDocument(lead), LeadSchema)
    ensures StringOrNull(lead.rating) && StringOrNull(lead.address)
    ensures StringOrNull(lead.phoneNumber) && StringOrNull(lead.websiteLink)
  {
    var doc := ToDocument(lead);
    LeadSchemaTypes();
    assert doc[RatingKey] == lead.rating && PropertyConforms(doc, LeadSchema, RatingKey);
    assert doc[AddressKey] == lead.address && PropertyConforms(doc, LeadSchema, AddressKey);
    assert doc[PhoneNumberKey] == lead.phoneNumber && PropertyConforms(doc, LeadSchema, PhoneNumberKey);
    assert doc[WebsiteLinkKey] == lead.websiteLink && PropertyConforms(doc, LeadSchema, WebsiteLinkKey);
  }

  /** The validator accepts a stored lead exactly when its optional properties are strings or null. */
  lemma DocumentConformsIff(lead: Lead)
    ensures Conforms(ToDocument(lead), LeadSchema)
        <==> StringOrNull(lead.rating) && StringOrNull(lead.address)
             && StringOrNull(lead.phoneNumber) && StringOrNull(lead.websiteLink)
  {
    if Conforms(ToDocument(lead), LeadSchema) {
      ConformingDocument(lead);
    }
    if StringOrNull(lead.rating) && StringOrNull(lead.address)
       && StringOrNull(lead.phoneNumber) && StringOrNull(lead.websiteLink) {
      DocumentConforms(lead);
    }
  }

  /**
   * A valid lead is accepted by the collection's validator exactly when each optional
   * input property is a string or falsy; in particular when each is a string or absent.
   */
  lemma ConformsIff(data: LeadData, createdAt: int, updatedAt: int)
    requires ValidateLead(data, createdAt, updatedAt).Valid?
    ensures Conforms(ToDocument(ValidateLead(data, createdAt, updatedAt).lead), LeadSchema)
        <==> forall key :: IsOptional(key) ==> Get(data, key).Str? || !Truthy(Get(data, key))
  {
    DocumentConformsIff(ValidateLead(data, createdAt, updatedAt).lead);
  }

  /** An empty optional string is stored as `null`. */
  lemma EmptyStringBecomesNull(data: LeadData, createdAt: int, updatedAt: int)
    requires ValidateLead(data, createdAt, updatedAt).Valid?
    requires Get(data, AddressKey) == Str("")
    ensures ValidateLead(data, createdAt, updatedAt).lead.address == Null
  {
  }
}
