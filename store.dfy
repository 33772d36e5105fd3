/** The account-and-property store behind the REST handlers: the users,
    properties and builders collections as tables keyed by id, and one method
    per handler. A handler that needs a logged-in user is given the user that
    `Authenticate` returned for the request's bearer token. */
module Server {
  import opened Outcomes
  import opened Records
  import opened Tokens
  import opened Properties
  import opened Listing

  /** What register and login return: a bearer token and the user. */
  datatype AuthResponse = AuthResponse(accessToken: Token, tokenType: string, user: UserView)

  class Store {
    var users: map<string, User>
    var properties: map<string, Property>
    var builders: map<string, Builder>

    /** Every table is keyed by its documents' ids, and no two users share
        an email. */
    ghost predicate Valid()
      reads this
    {
      (forall id :: id in users ==> users[id].id == id) &&
      (forall a, b :: a in users && b in users && users[a].email == users[b].email ==> a == b) &&
      KeyedById(properties) &&
      (forall id :: id in builders ==> builders[id].id == id)
    }

    constructor ()
      ensures Valid()
      ensures users == map[] && properties == map[] && builders == map[]
    {
      users, properties, builders := map[], map[], map[];
    }

    /** Some user is registered under `email`. */
    predicate EmailTaken(email: string)
      reads this
    {
      exists id :: id in users && users[id].email == email
    }

    /** Some property with this id belongs to the user `userId`. */
    predicate Owns(userId: string, id: string)
      reads this
    {
      id in properties && properties[id].userId == userId
    }

    // -------------------------------------------------------------------
    // Accounts

    /** Register: an email already in the table is refused and nothing
        changes; otherwise exactly one user is added, under the fresh id, and
        a token for that id is returned. */
    method Register(email: string, passwordHash: string, newId: string, now: int) returns (r: Result<AuthResponse>)
      requires Valid()
      requires newId !in users
      modifies this
      ensures Valid()
      ensures properties == old(properties) && builders == old(builders)
      ensures r.Err? <==> old(EmailTaken(email))
      ensures r.Err? ==> r.error == BadRequest(EmailAlreadyRegistered) && users == old(users)
      ensures r.Ok? ==>
                users == old(users)[newId := User(newId, email, passwordHash, now)] &&
                r.value == AuthResponse(IssueToken(newId, now), "bearer", UserView(newId, email, now))
    {
      if EmailTaken(email) {
        return Err(BadRequest(EmailAlreadyRegistered));
      }
      var user := User(newId, email, passwordHash, now);
      users := users[newId := user];
      r := Ok(AuthResponse(IssueToken(newId, now), "bearer", View(user)));
    }

    /** Login: an unknown email and a wrong password fail alike; a token for
        the user's id is returned only when the email is registered and the
        password verifies against its stored hash. */
    method Login(email: string, password: string, verify: (string, string) -> bool, now: int)
      returns (r: Result<AuthResponse>)
      requires Valid()
      ensures r.Err? <==> !exists id :: id in users && users[id].email == email && verify(password, users[id].passwordHash)
      ensures r.Err? ==> r.error == Unauthorized(IncorrectCredentials)
      ensures r.Ok? ==>
                (exists id :: id in users && users[id].email == email &&
                              r.value == AuthResponse(IssueToken(id, now), "bearer", View(users[id])))
    {
      if !EmailTaken(email) {
        return Err(Unauthorized(IncorrectCredentials));
      }
      var id :| id in users && users[id].email == email;
      var user := users[id];
      if !verify(password, user.passwordHash) {
        return Err(Unauthorized(IncorrectCredentials));
      }
      r := Ok(AuthResponse(IssueToken(user.id, now), "bearer", View(user)));
    }

    /** Bearer authentication: a token that does not decode (bad signature,
        expired), one without a subject, or one whose subject is no user is
        refused; otherwise the stored user the subject names is returned. */
    method Authenticate(token: Token, now: int) returns (r: Result<User>)
      requires Valid()
      ensures r.Ok? <==> Decode(token, now).Some? && Decode(token, now).value.sub.Some? &&
                         Decode(token, now).value.sub.value in users
      ensures r.Ok? ==> r.value == users[Decode(token, now).value.sub.value]
      ensures r.Ok? ==> r.value.id == Decode(token, now).value.sub.value
      ensures r.Err? ==> r.error == Unauthorized(CouldNotValidate)
    {
      var claims := Decode(token, now);
      if claims.None? || claims.value.sub.None? {
        return Err(Unauthorized(CouldNotValidate));
      }
      var id := claims.value.sub.value;
      if id !in users {
        return Err(Unauthorized(CouldNotValidate));
      }
      r := Ok(users[id]);
    }

    // -------------------------------------------------------------------
    // Properties

    /** Create: the new document is stored under the fresh id; a builder
        record is inserted, and its id stored in the document, exactly when a
        builder name is given. */
    method CreateProperty(input: PropertyInput, caller: User, newId: string, newBuilderId: string, now: int)
      returns (p: Property)
      requires Valid()
      requires newId !in properties && newBuilderId !in builders
      modifies this
      ensures Valid()
      ensures users == old(users)
      ensures p == NewProperty(input, caller, newId,
                               if Truthy(input.builderName) then Some(newBuilderId) else None, now)
      ensures properties == old(properties)[newId := p]
      ensures Truthy(input.builderName) ==>
                builders == old(builders)[newBuilderId := Builder(newBuilderId, input.builderName.value, input.builderPhone, now)]
      ensures !Truthy(input.builderName) ==> builders == old(builders)
    {
      var builderId: Option<string> := None;
      if Truthy(input.builderName) {
        builders := builders[newBuilderId := Builder(newBuilderId, input.builderName.value, input.builderPhone, now)];
        builderId := Some(newBuilderId);
      }
      p := NewProperty(input, caller, newId, builderId, now);
      properties := properties[newId := p];
    }

    /** Listing: only the caller's documents that pass the query, no document
        twice, newest first, as many as the query selects but at most 1000,
        and no document left out that is newer than one returned. */
    method GetProperties(caller: User, q: Query) returns (r: seq<Property>)
      requires Valid()
      ensures forall i :: 0 <= i < |r| ==> r[i] in properties.Values && Matches(r[i], caller.id, q)
      ensures NewestFirst(r) && NoDuplicates(r)
      ensures |r| == if |SelectedIds(properties, caller.id, q)| < ListLimit then |SelectedIds(properties, caller.id, q)| else ListLimit
      ensures forall p, i :: p in Selected(properties.Values, caller.id, q) && p !in r && 0 <= i < |r| ==> p.createdAt <= r[i].createdAt
    {
      var found: seq<Property> := [];
      var unseen := properties.Values;
      while unseen != {}
        invariant unseen <= properties.Values
        invariant Elements(found) == Selected(properties.Values - unseen, caller.id, q)
        invariant NoDuplicates(found)
        decreases unseen
      {
        var p :| p in unseen;
        assert properties.Values - (unseen - {p}) == (properties.Values - unseen) + {p};
        SelectedInsert(properties.Values - unseen, p, caller.id, q);
        if Matches(p, caller.id, q) {
          assert p !in found by {
            assert p !in Selected(properties.Values - unseen, caller.id, q);
          }
          AppendDistinct(found, p);
          found := found + [p];
        }
        unseen := unseen - {p};
      }
      assert properties.Values - unseen == properties.Values;
      DistinctCount(found);
      SelectedCountsDocuments(properties, caller.id, q);
      var sorted := SortNewestFirst(found);
      r := Take(sorted, ListLimit);
      forall i | 0 <= i < |r| ensures r[i] in properties.Values && Matches(r[i], caller.id, q) {
        assert r[i] in sorted;
        assert r[i] in Elements(found);
      }
      CutKeepsNewest(sorted, ListLimit);
    }

    /** Get: the property is returned when its id and owner both match the
        caller; otherwise NotFound. */
    method GetProperty(id: string, caller: User) returns (r: Result<Property>)
      requires Valid()
      ensures r.Ok? <==> Owns(caller.id, id)
      ensures r.Ok? ==> r.value == properties[id] && r.value.id == id && r.value.userId == caller.id
      ensures r.Err? ==> r.error == NotFound(PropertyNotFound)
    {
      if !Owns(caller.id, id) {
        return Err(NotFound(PropertyNotFound));
      }
      r := Ok(properties[id]);
    }

    /** Delete: removes exactly the caller's property with this id;
        otherwise NotFound and nothing changes. */
    method DeleteProperty(id: string, caller: User) returns (r: Result<string>)
      requires Valid()
      modifies this
      ensures Valid()
      ensures users == old(users) && builders == old(builders)
      ensures r.Ok? <==> old(Owns(caller.id, id))
      ensures r.Ok? ==> r.value == PropertyDeleted && properties == old(properties) - {id}
      ensures r.Err? ==> r.error == NotFound(PropertyNotFound) && properties == old(properties)
    {
      if !Owns(caller.id, id) {
        return Err(NotFound(PropertyNotFound));
      }
      properties := properties - {id};
      r := Ok(PropertyDeleted);
    }

    /** Update: overwrites the update fields of the caller's property with
        this id and returns the stored result; no other document changes.
        Otherwise NotFound and nothing changes. */
    method UpdateProperty(id: string, input: PropertyInput, caller: User, now: int) returns (r: Result<Property>)
      requires Valid()
      modifies this
      ensures Valid()
      ensures users == old(users) && builders == old(builders)
      ensures r.Ok? <==> old(Owns(caller.id, id))
      ensures r.Ok? ==> properties == old(properties)[id := Updated(old(properties)[id], input, now)] &&
                        r.value == properties[id]
      ensures r.Err? ==> r.error == NotFound(PropertyNotFound) && properties == old(properties)
    {
      if !Owns(caller.id, id) {
        return Err(NotFound(PropertyNotFound));
      }
      var updated := Updated(properties[id], input, now);
      UpdateKeepsIdentity(properties[id], input, now);
      properties := properties[id := updated];
      r := Ok(properties[id]);
    }

    /** Mark-sold: on the caller's property with this id, either marks the
        whole property sold or marks one floor and recomputes the property's
        flag from its floors. Otherwise NotFound and nothing changes. */
    method MarkSold(id: string, floorNumber: Option<int>, caller: User, now: int) returns (r: Result<string>)
      requires Valid()
      modifies this
      ensures Valid()
      ensures users == old(users) && builders == old(builders)
      ensures r.Ok? <==> old(Owns(caller.id, id))
      ensures r.Ok? ==> r.value == PropertyMarkedSold &&
                        properties == old(properties)[id := SoldState(old(properties)[id], floorNumber, now)]
      ensures r.Err? ==> r.error == NotFound(PropertyNotFound) && properties == old(properties)
    {
      if !Owns(caller.id, id) {
        return Err(NotFound(PropertyNotFound));
      }
      var doc := properties[id];
      if floorNumber.Some? {
        var floors := MarkFloorSold(doc.floors, floorNumber.value);
        properties := properties[id := doc.(floors := floors, isSold := Some(AllFloorsSold(floors)), updatedAt := now)];
      } else {
        properties := properties[id := doc.(isSold := Some(true), updatedAt := now)];
      }
      r := Ok(PropertyMarkedSold);
    }
  }
}
