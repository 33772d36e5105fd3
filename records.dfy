/** The documents kept in the users, builders and properties collections, and
    the request bodies the property handlers accept. Timestamps are instants
    in microseconds since the epoch. The service writes them as ISO-8601
    strings that end in `.ffffff`, or omit it when the microseconds are zero;
    the short form is a prefix of the long one, so the strings order as the
    instants do. Prices are `real` and are only compared. */
module Records {
  import opened Outcomes

  /** A document of the users collection. */
  datatype User = User(id: string, email: string, passwordHash: string, createdAt: int)

  /** What the auth handlers return about a user (the password hash is never sent). */
  datatype UserView = UserView(id: string, email: string, createdAt: int)

  function View(u: User): UserView {
    UserView(u.id, u.email, u.createdAt)
  }

  /** A document of the builders collection. */
  datatype Builder = Builder(id: string, name: string, phoneNumber: Option<string>, createdAt: int)

  /** One entry of a property's `builders` list. */
  datatype BuilderInfo = BuilderInfo(name: Option<string>, phoneNumber: Option<string>, countryCode: Option<string>)

  /** One entry of a property's `floors` list. */
  datatype Floor = Floor(floorNumber: int, price: real, priceUnit: Option<string>, isSold: Option<bool>)

  datatype Size = Size(kind: string, value: real, unit: string)

  datatype Address = Address(unitNo: Option<string>, block: Option<string>, sector: Option<string>, city: Option<string>)

  datatype ImportantFile = ImportantFile(name: string, uri: string, base64: Option<string>, mimeType: Option<string>)

  /** The property fields that create and update copy from the request
      verbatim; no handler inspects them. */
  datatype Details = Details(
    propertyPhotos: seq<string>,
    floor: Option<int>,
    paymentPlan: Option<string>,
    additionalNotes: Option<string>,
    black: Option<real>,
    white: Option<real>,
    blackPercentage: Option<real>,
    whitePercentage: Option<real>,
    possessionMonth: Option<int>,
    possessionYear: Option<int>,
    possessionDate: Option<string>,
    clubProperty: bool,
    poolProperty: bool,
    parkProperty: bool,
    gatedProperty: bool,
    propertyAge: Option<int>,
    handoverDate: Option<string>,
    latitude: Option<real>,
    longitude: Option<real>,
    sizes: seq<Size>,
    address: Option<Address>,
    importantFiles: seq<ImportantFile>)

  /** The body of a create or update request. An omitted list and an empty
      one are the same here: the handlers treat both alike. */
  datatype PropertyInput = PropertyInput(
    propertyCategory: Option<string>,
    propertyType: Option<string>,
    floors: seq<Floor>,
    price: Option<real>,
    priceUnit: Option<string>,
    builderName: Option<string>,
    builderPhone: Option<string>,
    builders: seq<BuilderInfo>,
    caseType: Option<string>,
    ageType: Option<string>,
    isSold: Option<bool>,
    details: Details)

  /** A document of the properties collection. `isSold == None` stands for a
      document without the field. */
  datatype Property = Property(
    id: string,
    propertyCategory: Option<string>,
    propertyType: Option<string>,
    floors: seq<Floor>,
    price: Option<real>,
    priceUnit: string,
    builderId: Option<string>,
    builderName: Option<string>,
    builderPhone: Option<string>,
    builders: seq<BuilderInfo>,
    caseType: Option<string>,
    ageType: Option<string>,
    userId: string,
    userEmail: string,
    isSold: Option<bool>,
    createdAt: int,
    updatedAt: int,
    details: Details)

  /** Python truthiness of an optional string: present and non-empty. */
  predicate Truthy(s: Option<string>) {
    s.Some? && s.value != ""
  }
}
