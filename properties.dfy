/** How the property handlers derive a stored property document from a
    request: the builders list, the defaults for price unit and sold flag, the
    fields an update overwrites, and the floor bookkeeping of mark-sold. */
module Properties {
  import opened Outcomes
  import opened Records

  const DefaultPriceUnit: string := "lakh"
  const DefaultCountryCode: string := "+91"

  /** `priceUnit or "lakh"`. */
  function PriceUnitOrDefault(u: Option<string>): string {
    if Truthy(u) then u.value else DefaultPriceUnit
  }

  /** `isSold or False`. */
  function SoldOrDefault(b: Option<bool>): bool {
    b == Some(true)
  }

  /** The `builders` list of a property: the given list when it is non-empty,
      else one entry made from the builder name and phone when a name is
      given, else nothing. */
  function BuildersFor(given: seq<BuilderInfo>, name: Option<string>, phone: Option<string>): seq<BuilderInfo> {
    if given != [] then given
    else if Truthy(name) then [BuilderInfo(name, phone, Some(DefaultCountryCode))]
    else []
  }

  /** The list is empty exactly when no builders and no builder name were
      given; a non-empty given list wins; otherwise the single entry carries
      the name, the phone and the default country code. */
  lemma BuildersForCases(given: seq<BuilderInfo>, name: Option<string>, phone: Option<string>)
    ensures BuildersFor(given, name, phone) == [] <==> given == [] && !Truthy(name)
    ensures given != [] ==> BuildersFor(given, name, phone) == given
    ensures given == [] && Truthy(name) ==>
              |BuildersFor(given, name, phone)| == 1 &&
              BuildersFor(given, name, phone)[0].name == name &&
              BuildersFor(given, name, phone)[0].phoneNumber == phone &&
              BuildersFor(given, name, phone)[0].countryCode == Some("+91")
  {
  }

  /** The document create stores: fresh id, owner taken from the caller,
      `builderId` the id of the builder record made for this request (if
      any), created and updated at `now`. */
  function NewProperty(input: PropertyInput, caller: User, id: string, builderId: Option<string>, now: int): (p: Property)
    ensures p.id == id && p.userId == caller.id && p.userEmail == caller.email
    ensures p.builderId == builderId && p.createdAt == now && p.updatedAt == now
    ensures !Truthy(input.priceUnit) ==> p.priceUnit == "lakh"
    ensures Truthy(input.priceUnit) ==> p.priceUnit == input.priceUnit.value
    ensures p.isSold == Some(input.isSold == Some(true))
    ensures p.builders == BuildersFor(input.builders, input.builderName, input.builderPhone)
  {
    Property(
      id := id,
      propertyCategory := input.propertyCategory,
      propertyType := input.propertyType,
      floors := input.floors,
      price := input.price,
      priceUnit := PriceUnitOrDefault(input.priceUnit),
      builderId := builderId,
      builderName := input.builderName,
      builderPhone := input.builderPhone,
      builders := BuildersFor(input.builders, input.builderName, input.builderPhone),
      caseType := input.caseType,
      ageType := input.ageType,
      userId := caller.id,
      userEmail := caller.email,
      isSold := Some(SoldOrDefault(input.isSold)),
      createdAt := now,
      updatedAt := now,
      details := input.details)
  }

  /** The fields an update never writes. */
  predicate SameIdentity(p: Property, q: Property) {
    p.id == q.id && p.userId == q.userId && p.userEmail == q.userEmail &&
    p.builderId == q.builderId && p.createdAt == q.createdAt
  }

  /** The document after an update: every field of the update dictionary
      is overwritten from the request; the rest are kept. */
  function Updated(p: Property, input: PropertyInput, now: int): Property {
    p.(
      propertyCategory := input.propertyCategory,
      propertyType := input.propertyType,
      floors := input.floors,
      price := input.price,
      priceUnit := PriceUnitOrDefault(input.priceUnit),
      builderName := input.builderName,
      builderPhone := input.builderPhone,
      builders := BuildersFor(input.builders, input.builderName, input.builderPhone),
      caseType := input.caseType,
      ageType := input.ageType,
      isSold := Some(SoldOrDefault(input.isSold)),
      updatedAt := now,
      details := input.details)
  }

  /** An update keeps id, owner, owner email, builder id and creation time. */
  lemma UpdateKeepsIdentity(p: Property, input: PropertyInput, now: int)
    ensures SameIdentity(Updated(p, input, now), p)
    ensures Updated(p, input, now).updatedAt == now
  {
  }

  /** Everything but those five fields comes from the request alone: two
      documents with the same identity are equal after the same update. */
  lemma UpdateOverwritesTheRest(p: Property, q: Property, input: PropertyInput, now: int)
    requires SameIdentity(p, q)
    ensures Updated(p, input, now) == Updated(q, input, now)
  {
  }

  /** Update and create derive the overwritten fields the same way: updating
      a caller's property gives what creating it from the same request would,
      apart from the original creation time. */
  lemma UpdateAgreesWithCreate(p: Property, input: PropertyInput, caller: User, now: int)
    requires p.userId == caller.id && p.userEmail == caller.email
    ensures Updated(p, input, now) == NewProperty(input, caller, p.id, p.builderId, now).(createdAt := p.createdAt)
  {
  }

  /** Repeating an update changes nothing more. */
  lemma UpdateIdempotent(p: Property, input: PropertyInput, now: int)
    ensures Updated(Updated(p, input, now), input, now) == Updated(p, input, now)
  {
  }

  // ---------------------------------------------------------------------
  // Floors and mark-sold

  /** `f.get("isSold", False)` is truthy. */
  predicate FloorSold(f: Floor) {
    f.isSold == Some(true)
  }

  /** The floor list is non-empty and every floor is sold. */
  predicate AllFloorsSold(floors: seq<Floor>) {
    |floors| > 0 && forall i :: 0 <= i < |floors| ==> FloorSold(floors[i])
  }

  /** The index of the first floor numbered `n`, or `|floors|` if none is. */
  function FirstMatch(floors: seq<Floor>, n: int): (k: nat)
    ensures k <= |floors|
    ensures k < |floors| ==> floors[k].floorNumber == n
    ensures forall i :: 0 <= i < k ==> floors[i].floorNumber != n
    decreases |floors|
  {
    if floors == [] then 0
    else if floors[0].floorNumber == n then 0
    else 1 + FirstMatch(floors[1..], n)
  }

  /** The floor list with the first floor numbered `n` marked sold. */
  function MarkFirstFloor(floors: seq<Floor>, n: int): seq<Floor> {
    var k := FirstMatch(floors, n);
    if k == |floors| then floors else floors[k := floors[k].(isSold := Some(true))]
  }

  /** Only the first floor numbered `n` changes, and only its sold flag;
      with no such floor nothing changes. */
  lemma MarkFirstFloorEffect(floors: seq<Floor>, n: int)
    ensures |MarkFirstFloor(floors, n)| == |floors|
    ensures forall i :: 0 <= i < |floors| && i != FirstMatch(floors, n) ==>
              MarkFirstFloor(floors, n)[i] == floors[i]
    ensures FirstMatch(floors, n) < |floors| ==>
              MarkFirstFloor(floors, n)[FirstMatch(floors, n)] ==
              floors[FirstMatch(floors, n)].(isSold := Some(true))
    ensures (forall i :: 0 <= i < |floors| ==> floors[i].floorNumber != n) ==>
              MarkFirstFloor(floors, n) == floors
  {
  }

  /** Where the first floor numbered `n` sits depends only on the floor numbers. */
  lemma FirstMatchByNumbers(a: seq<Floor>, b: seq<Floor>, n: int)
    requires |a| == |b|
    requires forall i :: 0 <= i < |a| ==> a[i].floorNumber == b[i].floorNumber
    ensures FirstMatch(a, n) == FirstMatch(b, n)
  {
  }

  /** Marking the same floor twice is the same as marking it once. */
  lemma MarkFirstFloorIdempotent(floors: seq<Floor>, n: int)
    ensures MarkFirstFloor(MarkFirstFloor(floors, n), n) == MarkFirstFloor(floors, n)
  {
  }

  /** After marking, the floors are all sold exactly when the list is
      non-empty and every floor other than the marked one was already sold. */
  lemma AllSoldAfterMarking(floors: seq<Floor>, n: int)
    ensures AllFloorsSold(MarkFirstFloor(floors, n)) <==>
              |floors| > 0 &&
              forall i :: 0 <= i < |floors| && i != FirstMatch(floors, n) ==> FloorSold(floors[i])
  {
  }

  /** The document after mark-sold: without a floor number the property is
      sold and its floors are untouched; with one, that floor is marked and
      the property's flag is recomputed from all its floors. */
  function SoldState(p: Property, floorNumber: Option<int>, now: int): Property {
    match floorNumber
    case None => p.(isSold := Some(true), updatedAt := now)
    case Some(n) =>
      var floors := MarkFirstFloor(p.floors, n);
      p.(floors := floors, isSold := Some(AllFloorsSold(floors)), updatedAt := now)
  }

  /** Mark-sold writes only the floors, the sold flag and the update time. */
  lemma SoldStateFrame(p: Property, floorNumber: Option<int>, now: int)
    ensures SoldState(p, floorNumber, now).(floors := p.floors, isSold := p.isSold, updatedAt := p.updatedAt) == p
    ensures SoldState(p, floorNumber, now).updatedAt == now
  {
  }

  /** Without a floor number the property becomes sold and keeps its floors. */
  lemma MarkWholePropertySold(p: Property, now: int)
    ensures SoldState(p, None, now).isSold == Some(true)
    ensures SoldState(p, None, now).floors == p.floors
  {
  }

  /** With a floor number, the property is sold exactly when, after marking,
      it has floors and all of them are sold. */
  lemma MarkFloorSoldFlag(p: Property, n: int, now: int)
    ensures SoldState(p, Some(n), now).floors == MarkFirstFloor(p.floors, n)
    ensures SoldState(p, Some(n), now).isSold == Some(true) <==>
              |p.floors| > 0 &&
              forall i :: 0 <= i < |p.floors| && i != FirstMatch(p.floors, n) ==> FloorSold(p.floors[i])
  {
    AllSoldAfterMarking(p.floors, n);
  }

  /** The recomputed flag can un-sell a property: marking a floor of a sold
      property that has no floors, or still has another unsold floor, leaves
      it unsold. */
  lemma MarkFloorCanUnsell(p: Property, n: int, now: int)
    requires p.isSold == Some(true)
    requires p.floors == [] || exists i :: 0 <= i < |p.floors| && p.floors[i].floorNumber != n && !FloorSold(p.floors[i])
    ensures SoldState(p, Some(n), now).isSold == Some(false)
  {
    AllSoldAfterMarking(p.floors, n);
  }

  /** The loop of mark-sold: walk the floors and mark the first one numbered
      `n`, then stop. */
  method MarkFloorSold(floors: seq<Floor>, n: int) returns (r: seq<Floor>)
    ensures r == MarkFirstFloor(floors, n)
  {
    r := floors;
    var i := 0;
    while i < |r|
      invariant 0 <= i <= |r| && r == floors
      invariant forall j :: 0 <= j < i ==> floors[j].floorNumber != n
    {
      if r[i].floorNumber == n {
        r := r[i := r[i].(isSold := Some(true))];
        assert i == FirstMatch(floors, n);
        return;
      }
      i := i + 1;
    }
  }
}
