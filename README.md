# BrickBase account-and-property store, modelled in Dafny

This project models the REST backend in `backend/server.py`: a real-estate
inventory service where users register and log in with email and password,
then create, list, read, update, delete and mark sold their own property
listings. The MongoDB collections `users`, `properties` and `builders`
become three `map` fields of the class `Server.Store`, each keyed by the
documents' `id`. Each HTTP handler becomes a method of that class. A handler
that can fail returns `Ok(value)` or `Err(e)`, where `e` is `BadRequest`,
`Unauthorized` or `NotFound` with the detail text the handler sends.
`CreateProperty` and `GetProperties` have no failure of their own: they return
the created `Property` and the listed sequence directly.

Files:

- `outcomes.dfy` (`Outcomes`): `Option`, `Result`, the error kinds and the detail strings.
- `records.dfy` (`Records`): the stored documents (`User`, `Builder`, `Property`, `Floor`, …) and the request body `PropertyInput`. Fields that create and update copy verbatim are grouped in `Details`. `Truthy` is Python truthiness of an optional string.
- `tokens.dfy` (`Tokens`): access tokens, with a seven-day lifetime.
- `properties.dfy` (`Properties`): the pure derivations. These are the new document on create, the fields an update overwrites, the builders list, the price-unit and sold defaults, and the floor bookkeeping of mark-sold. It also holds the mark-sold floor loop (`MarkFloorSold`).
- `listing.dfy` (`Listing`): the listing query predicate, the newest-first sort and the 1000-document cap.
- `store.dfy` (`Server`): the class `Store` and its handler methods.

The class invariant `Store.Valid()` says two things. Every table is keyed by
its documents' ids. No two users share an email. Register keeps the second
by refusing a taken email. The source has no unique index for this.

Handlers behind bearer authentication receive the `User` that
`Store.Authenticate` returned for the request's token. Scoping is by that
user's `id`.

Timestamps are integers counting microseconds since the epoch, the resolution
of `datetime.utcnow()`. The service stores `datetime.utcnow().isoformat()`
strings. These come in two forms: `YYYY-MM-DDTHH:MM:SS.ffffff`, and the same
without `.ffffff` when the microseconds are zero. The short form is a prefix of
the long form for the same second, so it sorts first, and strings of either
form sort in the same order as the instants they name. Sorting on `createdAt`
is therefore modelled as sorting on the integer. Token expiry is in whole
seconds: the `exp` claim is the issue instant truncated to the second plus
seven days, and decoding compares it with the current second.

This model follows `backend/server.py` as written. Later revisions of the
service are not part of this model. Those revisions add mobile OTP login,
organizations with invite codes, subscriptions and city pricing.

## Model

| member | source | states |
|---|---|---|
| `Server.Store.Register` | backend/server.py:227-263 | A taken email fails with BadRequest "Email already registered" and the user table is unchanged. Otherwise exactly one user (fresh id, that email, the hash, `createdAt`) is added, a bearer token for the new id is returned, and the other tables are unchanged. |
| `Server.Store.Login` | backend/server.py:273-303 | Fails with the same Unauthorized "Incorrect email or password" for an unknown email and for a password that does not verify. Succeeds exactly when some user has that email and the password verifies against its hash, and then returns a token for that user's id. |
| `Server.Store.Authenticate` | backend/server.py:204-222 | On a valid store, succeeds exactly when the token decodes, carries a subject, and the subject is a user id in the table, and then returns that stored user, whose `id` is the subject. Every failure is Unauthorized "Could not validate credentials". |
| `Tokens.IssueToken` | backend/server.py:193-201 | The issued token carries the subject, and its `exp` is the issue instant truncated to whole seconds plus seven days (604800 seconds). |
| `Tokens.Decode` | backend/server.py:210-217 | Decoding succeeds exactly for a verifying token whose `exp` is not before the current second, and then yields its claims. |
| `Tokens.IssuedTokenDecodes` | backend/server.py:193-217 | A token issued for a subject decodes to that subject throughout its lifetime, and fails to decode after it. |
| `Tokens.IssueTokenInjective` | backend/server.py:193-201 | Two equal tokens were issued for the same subject within the same second. |
| `Server.Store.CreateProperty` | backend/server.py:323-419 | The new document is stored under the fresh id and nothing else in the property table changes. A builder record is inserted, and its id stored as `builderId`, exactly when a builder name is given. The user table is unchanged. |
| `Properties.NewProperty` | backend/server.py:375-415 | The created document has the fresh id, `userId`/`userEmail` from the caller, `createdAt = updatedAt = now`, and `priceUnit` "lakh" unless one is given. `isSold` is true only if the request says true. `builders` follows the builders rule. |
| `Properties.BuildersFor` | backend/server.py:343-352 | The builders list: the given list when non-empty, else one entry with the builder name, phone and country code "+91" when a name is given, else empty. |
| `Properties.BuildersForCases` | backend/server.py:343-352 | The builders list is empty exactly when neither a list nor a builder name is given. A non-empty given list is kept. Otherwise it is one entry with the name, the phone and country code "+91". |
| `Server.Store.GetProperties` | backend/server.py:427-468 | On a valid store, returns only stored documents of the caller that pass the query, each at most once and newest first. It returns min(1000, number of stored documents the query selects, counted by id) of them, and no selected document left out is newer than one returned. |
| `Listing.Matches` | backend/server.py:439-462 | The listing query: the caller's documents, only those not flagged sold (a missing flag counts as unsold) unless sold ones are asked for, equal on each given type, category, case and age filter, and with a price within each given bound. |
| `Listing.DefaultQuerySelectsUnsold` | backend/server.py:439-443 | With no parameters the listing selects exactly the caller's properties not flagged sold. A missing flag counts as unsold. |
| `Listing.PriceBoundsInclusive` | backend/server.py:457-462 | With a price bound given, only priced documents pass. With the other filters passing, a document passes exactly when its price lies within the given bounds, both inclusive. |
| `Listing.SortNewestFirst` | backend/server.py:465 | The result is a permutation of the input (equal multisets), is ordered by `createdAt` newest first, and keeps a duplicate-free input duplicate-free. |
| `Listing.InsertNewest` | backend/server.py:465 | The result's multiset is the input's plus the one inserted document. A newest-first input gives a newest-first result, and a duplicate-free input without the document gives a duplicate-free result. |
| `Listing.Take` | backend/server.py:466 | The cap keeps the first min(n, length) documents of the sorted sequence. |
| `Listing.DistinctCount` | backend/server.py:466 | A duplicate-free result has as many distinct documents as entries, so the 1000 cap counts documents. |
| `Listing.SelectedCountsDocuments` | backend/server.py:465-466 | In a table keyed by document id, the selected documents are as many as the selected ids, so the count is one per stored document. |
| `Listing.CutKeepsNewest` | backend/server.py:465-466 | Cutting a newest-first sequence never drops a document newer than one kept. |
| `Server.Store.GetProperty` | backend/server.py:476-489 | Succeeds exactly when a property with that id belongs to the caller, and returns it. Otherwise NotFound "Property not found". |
| `Server.Store.DeleteProperty` | backend/server.py:499-512 | Succeeds exactly when a property with that id belongs to the caller, and then removes exactly that one property. Otherwise NotFound and the table is unchanged. Users and builders never change. |
| `Server.Store.UpdateProperty` | backend/server.py:522-613 | Succeeds exactly when the caller owns the property. It then replaces only that document by its update and returns the stored result. Otherwise NotFound and nothing changes. |
| `Properties.Updated` | backend/server.py:569-604 | The document after an update: every `update_dict` field is taken from the request, with the price-unit, sold and builders defaults of create; `id`, `userId`, `userEmail`, `builderId` and `createdAt` are kept; `updatedAt` is `now`. |
| `Properties.UpdateKeepsIdentity` | backend/server.py:569-609 | An update keeps `id`, `userId`, `userEmail`, `builderId` and `createdAt`, and sets `updatedAt`. |
| `Properties.UpdateOverwritesTheRest` | backend/server.py:569-604 | Every other field comes from the request alone: two documents that agree on those five fields are equal after the same update. |
| `Properties.UpdateAgreesWithCreate` | backend/server.py:375-415 | Updating gives what creating from the same request would, except for the original `createdAt`. |
| `Properties.UpdateIdempotent` | backend/server.py:569-609 | Applying the same update twice equals applying it once. |
| `Server.Store.MarkSold` | backend/server.py:623-660 | Succeeds exactly when the caller owns the property. It then replaces only that document by its mark-sold state. Otherwise NotFound and nothing changes. |
| `Properties.SoldState` | backend/server.py:638-658 | The document after mark-sold: without a floor number it is flagged sold with floors untouched; with one, the first floor of that number is marked sold and the flag becomes whether the list is non-empty and all floors are sold; `updatedAt` is `now`. |
| `Properties.MarkFirstFloor` | backend/server.py:641-644 | The floor list with the first floor carrying that number flagged sold, and unchanged when there is none. |
| `Properties.MarkFloorSold` | backend/server.py:640-644 | The loop marks the first floor with the given number sold and stops. |
| `Properties.FirstMatch` | backend/server.py:641-644 | Gives the index of the first floor with that number, or the list length when there is none. |
| `Properties.MarkFirstFloorEffect` | backend/server.py:641-644 | Only the first matching floor changes, and only its sold flag. With no matching floor nothing changes. |
| `Properties.FirstMatchByNumbers` | backend/server.py:641-642 | Which floor matches depends only on the floor numbers. |
| `Properties.MarkFirstFloorIdempotent` | backend/server.py:641-644 | Marking the same floor number twice equals marking it once. |
| `Properties.AllSoldAfterMarking` | backend/server.py:647 | After marking, all floors are sold exactly when the list is non-empty and every floor other than the marked one was already sold. |
| `Properties.MarkFloorSoldFlag` | backend/server.py:638-652 | With a floor number, the property's flag becomes true exactly when it has floors and, once that floor is marked, all of them are sold. |
| `Properties.MarkFloorCanUnsell` | backend/server.py:647-652 | A sold property with no floors, or with another unsold floor, becomes unsold when a floor is marked. |
| `Properties.MarkWholePropertySold` | backend/server.py:653-658 | Without a floor number the property becomes sold and its floors are untouched. |
| `Properties.SoldStateFrame` | backend/server.py:649-658 | Mark-sold writes only `floors`, `isSold` and `updatedAt`. |

## Left out

- MongoDB I/O is replaced by in-memory maps. Mongo's query language beyond the listing filter is not modelled. Neither is the natural order of a collection: listing ties on `createdAt` may come back in any order, and the model's sort picks one.
- Concurrency is not modelled. Two concurrent registrations with the same email could both pass the check in the source, because there is no unique index. The model runs handlers one at a time.
- JWT signing, the secret key, the HS256 algorithm and the library's clock leeway are not modelled. A token either verifies, with readable claims, or it does not.
- bcrypt is not modelled. `Register` receives the already computed hash, and `Login` receives the verification predicate as a parameter.
- `uuid.uuid4()` and `datetime.utcnow()` are parameters. Ids are required fresh in their table. Separate `utcnow()` calls within one handler are one instant `now`: the property's `createdAt` and `updatedAt`; in `register`, the user's `createdAt` and the token expiry computed from a later call, so the model's `exp` is tied to the second of `createdAt` where the source's may fall in a later second; and in `create_property`, the builder record's `createdAt` and the property's timestamps.
- Pydantic validation is not modelled. That covers `EmailStr`, the six-character password minimum and coercion of request and response bodies. Omitted request lists and empty lists are both `[]`. A document whose `isSold` is stored as null is not representable.
- Floating-point behaviour is not modelled. Prices, coordinates and percentages are `real` and are only compared or copied.
- `get_me` (`/auth/me`) is not modelled: it returns the authenticated user's id, email and creation time, which is `Records.View` of `Authenticate`'s result.
- The re-read of the document after an update (`find_one` by id alone) is not modelled separately. Ids are unique, so the model returns the stored document.
- `HTTPBearer()` is not modelled. It rejects a request whose `Authorization` header is missing or not of the `Bearer` scheme with FastAPI's own "Not authenticated" error, before `get_current_user` runs. `Tokens.Token` has no "no credentials" case, so `Authenticate` always receives some token.
- Also left out: FastAPI routing, CORS middleware, logging, the re-wrapping of unexpected exceptions as HTTP 500, the root endpoint and the shutdown hook.
