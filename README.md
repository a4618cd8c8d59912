# Million real-estate backend — a verified model of its core

This project models the core of a real-estate listing backend. Owners register, list
properties, attach images and record sales ("traces") of their properties; clients search
the listings; users sign in and receive a token. The model covers these parts:

- the domain entities: `Property`, `PropertyImage`, `PropertyTrace`, `Owner` and `User`,
  with their constructor checks and mutators;
- the FluentResults conventions the application uses, and how a result is rendered as an
  HTTP status code and message (`ResultExtensions`);
- the validation stage that runs every FluentValidation validator before a handler
  (`ValidationBehavior`), and the validators themselves;
- the repositories over the SQL tables: lookups, searches with paging, adds, updates and
  deletes;
- the command and query handlers: create, update, re-price and delete a property; add an
  image or a trace; list images and traces; register and read an owner; search; read a
  property's detail; list an owner's properties; sign in.

Each entity whose fields the source reassigns in place is a `class` over a value datatype
of its stored fields. Each repository is a class holding its table as a `seq` of rows.
Every handler is modelled twice:

- an outcome function over the tables, returning the result and the new rows;
- a method over the repository objects whose `ensures` ties the answer and the new table
  to that function.

Lemmas then state what each handler promises. Examples:

- exactly when it succeeds, and what it writes;
- that every refusal leaves the tables as they were;
- which status code and message each refusal carries.

Modelling conventions:

- `decimal` amounts are whole numbers (`int`).
- A `DateTime` is a tick count, and 0 stands for `default(DateTime)`.
- A GUID is the 128-bit number its "N" format spells.
- An exception is a value (`Outcome.Threw`).
- A table whose database is unreachable carries a `fault`, which every repository call
  raises.
- The current time, fresh GUIDs, the signed-in owner's id, the password check and the token
  generator are parameters.

## Model

| member | source | states |
|---|---|---|
| AuthFeature.Login | src/Million.Application/Auth/Commands/LoginHandler.cs:25-52 | sign-in succeeds iff a user was found for the e-mail, is active and the password verifies against its hash; the answer then carries the user's id, e-mail, names, role, owner id and the token generated for that user; every refusal is the same 401 "Invalid email or password" |
| AuthFeature.TokenOnlyAfterChecks | src/Million.Application/Auth/Commands/LoginHandler.cs:29-39 | a refused sign-in answers the same whatever the token generator does and as if no user had been found: no token is produced before both checks pass |
| AuthFeature.DeactivatedCannotSignIn | src/Million.Application/Auth/Commands/LoginHandler.cs:29-32 | a deactivated user is refused whatever the password; reactivating with a password that verifies lets it sign in again |
| Common.Attempt | src/Million.Application/Properties/Commands/CreatePropertyHandler.cs:67-70 | a call to a failing collaborator throws exactly its fault, otherwise returns the value (the exceptions every handler's catch receives) |
| Common.Wrap32 | src/Million.Infrastructure/Persistence/Sql/Repositories/PropertyRepository.cs:85 | unchecked C# int arithmetic: equal to the true value when it fits in 32 bits, and congruent to it modulo 2^32 always |
| Common.GuidN | src/Million.Domain/Entities/Property.cs:52 | `ToString("N")` of a GUID has 32 characters |
| Common.GuidText | src/Million.Application/Properties/Commands/DeletePropertyHandler.cs:35 | the interpolated GUID in the not-found messages has 36 characters with dashes at positions 8, 13, 18 and 23 |
| Common.ToLowerChar | src/Million.Domain/Entities/User.cs:29 | a lower-cased character is never an upper-case ASCII letter |
| Common.ToLowerInvariant | src/Million.Domain/Entities/User.cs:29 | `ToLowerInvariant` keeps the length, leaves no upper-case ASCII letter, and changes each character only by lower-casing it |
| Common.ToUpperChar | src/Million.Domain/Entities/Property.cs:52 | an upper-cased character is never a lower-case ASCII letter |
| Common.ToUpperInvariant | src/Million.Domain/Entities/Property.cs:52 | `ToUpper` on the code's hex suffix keeps the length and leaves no lower-case ASCII letter |
| Common.Digits | src/Million.Domain/Entities/Property.cs:52 | the `yyyyMMdd` fields are exactly `width` decimal digits |
| Common.Hex | src/Million.Domain/Entities/Property.cs:52 | the GUID digits taken into the code are exactly `width` lower-case hex digits |
| Common.DigitsRoundTrip | src/Million.Domain/Entities/Property.cs:52 | a number printed in `width` digits reads back as itself when it fits |
| Common.Utf16Length | src/Million.Application/Properties/Commands/CreatePropertyValidator.cs:12 | `string.Length`, which `MaximumLength` and the `nvarchar` columns measure: between the number of characters and twice it, and equal to it when every character is in the Basic Multilingual Plane |
| Common.Where | src/Million.Infrastructure/Persistence/Sql/Repositories/PropertyRepository.cs:69-79 | LINQ `Where` keeps only elements satisfying the test, drops none that does, and never grows the sequence |
| Common.WhereWhere | src/Million.Infrastructure/Persistence/Sql/Repositories/PropertyRepository.cs:69-79 | two `Where` calls in a row select what one `Where` with the conjunction selects |
| Common.WhereCongruent | src/Million.Infrastructure/Persistence/Sql/Repositories/PropertyRepository.cs:69-79 | `Where` depends only on the test's values on the elements of the sequence |
| Common.WhereAll | src/Million.Infrastructure/Persistence/Sql/Repositories/PropertyRepository.cs:69-79 | a `Where` whose test every element passes returns the sequence unchanged |
| Common.Skip | src/Million.Infrastructure/Persistence/Sql/Repositories/PropertyRepository.cs:85 | LINQ `Skip`: a count at or below zero skips nothing, one past the end leaves nothing, otherwise the remaining elements in order |
| Common.Take | src/Million.Infrastructure/Persistence/Sql/Repositories/PropertyRepository.cs:86 | LINQ `Take`: a count at or below zero takes nothing, otherwise the first min(n, length) elements in order |
| ImagePersistence.ImagesOf | src/Million.Infrastructure/Persistence/Sql/Repositories/PropertyImageRepository.cs:22-27 | the query holds exactly the stored images of the property |
| ImagePersistence.ImageRepository.constructor | src/Million.Infrastructure/Persistence/Sql/Repositories/PropertyImageRepository.cs:12-15 | a repository over the given rows and fault |
| ImagePersistence.ImageRepository.GetByPropertyIdAsync | src/Million.Infrastructure/Persistence/Sql/Repositories/PropertyImageRepository.cs:22-27 | throws iff the table is unreachable; otherwise answers exactly the property's images |
| ImagePersistence.ImageRepository.GetFirstEnabledByPropertyIdAsync | src/Million.Infrastructure/Persistence/Sql/Repositories/PropertyImageRepository.cs:29-34 | null iff the property has no enabled image; otherwise a stored enabled image of that property |
| ImagePersistence.ImageRepository.AddAsync | src/Million.Infrastructure/Persistence/Sql/Repositories/PropertyImageRepository.cs:36-41 | the new table and the answer are those of inserting the image's row: appended, or rejected with a `DbUpdateException` for a duplicate key or a path wider than the 500-unit `File` column, the table then unchanged |
| ImagePersistence.ImageRepository.DeleteAsync | src/Million.Infrastructure/Persistence/Sql/Repositories/PropertyImageRepository.cs:50-58 | the new table and the answer are those of removing the row with that id (false and no change when absent) |
| OwnerEntity.Construct | src/Million.Domain/Entities/Owner.cs:12-25 | an owner is built iff name and address are not blank; the name is checked first, each rejection names its argument; the photo is stored as empty when null |
| OwnerEntity.Owner.Load | src/Million.Domain/Entities/Owner.cs:20-24 | an owner object holding exactly the given fields |
| OwnerEntity.Owner.New | src/Million.Domain/Entities/Owner.cs:12-36 | the constructor builds a fresh object with the fields `Construct` yields, or throws its exception |
| OwnerEntity.Owner.ChangeAddress | src/Million.Domain/Entities/Owner.cs:38-43 | the object's new fields and the exception are those of the address transition |
| OwnerEntity.ChangeAddressEffect | src/Million.Domain/Entities/Owner.cs:38-43 | a blank address throws and changes nothing; otherwise only the address changes, and a valid owner stays valid |
| OwnerFeature.NameRule | src/Million.Application/Owners/Commands/CreateOwnerValidator.cs:9-11 | "Name is required." iff blank, the length message iff over 100 characters, nothing else |
| OwnerFeature.AddressRule | src/Million.Application/Owners/Commands/CreateOwnerValidator.cs:13-15 | "Address is required." iff blank, the length message iff over 200 characters, nothing else |
| OwnerFeature.BirthdayRule | src/Million.Application/Owners/Commands/CreateOwnerValidator.cs:17-19 | "Birthday is required." iff the birthday is `default(DateTime)`, "Birthday must be in the past." iff it is not before now |
| OwnerFeature.PhotoRule | src/Million.Application/Owners/Commands/CreateOwnerValidator.cs:21-23 | a photo fails iff it is not null or blank and exceeds 500 characters, and then with the one length message |
| OwnerFeature.CreateOwnerFailures | src/Million.Application/Owners/Commands/CreateOwnerValidator.cs:7-24 | no message iff every field rule passes; a message is reported iff one of the four rules reports it |
| OwnerFeature.BlankPhotoUnbounded | src/Million.Application/Owners/Commands/CreateOwnerValidator.cs:21-23 | a white-space photo of any length never draws the length message |
| OwnerFeature.BlankWidePhotoFailsAtSave | src/Million.Application/Owners/Commands/CreateOwnerHandler.cs:20-41 | a blank photo over 500 units passes the validator and the owner's checks, then the save fails: "Error creating owner: " and the database's message, with nothing stored |
| OwnerFeature.CreateOwner | src/Million.Application/Owners/Commands/CreateOwnerHandler.cs:20-41 | the method's answer and new owner table are those of the handler's outcome function |
| OwnerFeature.CreateOwnerEffect | src/Million.Application/Owners/Commands/CreateOwnerHandler.cs:20-41 | registration succeeds iff name and address are not blank, name, address and photo fit their 100, 200 and 500-unit columns, and the table is reachable without the new id; it then appends exactly that owner (null photo stored as empty) and returns its DTO; otherwise nothing is stored; a blank name answers "Error creating owner: Name is required (Parameter 'name')" |
| OwnerFeature.AcceptedOwnerConstructs | src/Million.Application/Owners/Commands/CreateOwnerHandler.cs:24-30 | a command the validator accepts never trips the owner's constructor checks |
| OwnerFeature.OwnerByIdAnswer | src/Million.Application/Owners/Queries/GetOwnerByIdHandler.cs:19-37 | over a reachable table: 404 "Owner with ID … not found" iff no owner has the id; otherwise the stored owner's DTO |
| OwnerFeature.CreateThenGet | src/Million.Application/Owners/Queries/GetOwnerByIdHandler.cs:23-31 | after a successful registration the new id reads back as the DTO registration returned, and every other id reads as before |
| OwnerPersistence.OwnerRepository.constructor | src/Million.Infrastructure/Persistence/Sql/Repositories/OwnerRepository.cs:12-15 | a repository over the given rows and fault |
| OwnerPersistence.OwnerRepository.GetByIdAsync | src/Million.Infrastructure/Persistence/Sql/Repositories/OwnerRepository.cs:17-21 | throws iff unreachable; otherwise non-null iff some owner has the id, and then that stored owner |
| OwnerPersistence.OwnerRepository.ExistsAsync | src/Million.Infrastructure/Persistence/Sql/Repositories/OwnerRepository.cs:28-31 | throws iff unreachable; otherwise true iff some owner has the id |
| OwnerPersistence.OwnerRepository.AddAsync | src/Million.Infrastructure/Persistence/Sql/Repositories/OwnerRepository.cs:33-38 | the new table and the answer are those of inserting the owner's row: appended, or rejected with a `DbUpdateException` for a duplicate key or a name over 100, an address over 200 or a photo over 500 UTF-16 units |
| Ownership.CaughtRendering | src/Million.Application/Properties/Commands/CreatePropertyHandler.cs:67-70 | the catch branch answers 400 with the handler's prefix followed by the exception's message |
| Ownership.Guard | src/Million.Application/Properties/Commands/UpdatePropertyHandler.cs:25-41 | the guards pass iff the token names an owner, the lookup returns a property and that owner owns it; otherwise 401 without a token, the thrown exception, 404 for a missing property or 403 for someone else's, in that order |
| Ownership.RefusalRendering | src/Million.Application/Properties/Commands/UpdatePropertyHandler.cs:25-41 | a stopped request fails with 401 "Owner ID not found in token", the caught exception's 400, 404 "Property with ID … not found" or 403 with the handler's message, by where it stopped |
| Ownership.GateAllowsOwner | src/Million.Application/Properties/Commands/UpdatePropertyHandler.cs:30-41 | with unique ids the guards let a request through iff the caller owns the stored property, and then hand over that property |
| Ownership.RunGuards | src/Million.Application/Properties/Commands/UpdatePropertyHandler.cs:25-41 | running the token check, the lookup and the ownership check on the repository ends at the gate the guard function gives for the table: the stored row when the caller owns it, otherwise where the request stopped |
| Pipeline.OneValidator | src/Million.Application/Common/Behaviors/ValidationBehavior.cs:24-41 | with a single validator, the collected messages are that validator's; a nonempty list answers their validation errors, an empty one the handler's result |
| Pipeline.Through | src/Million.Application/Common/Behaviors/ValidationBehavior.cs:19-65 | a request the validator refuses answers 400 without running the handler, so no table changes; one it accepts answers exactly as the handler does |
| Pipeline.CreatePropertyThroughValidation | src/Million.Application/Properties/Commands/CreatePropertyValidator.cs:7-36 | a create command the validator refuses answers 400 with its messages and leaves the property and image tables unchanged; an accepted one gets the handler's answer |
| Pipeline.NameBetweenLimitsFailsAtSave | src/Million.Application/Properties/Commands/CreatePropertyHandler.cs:45-70 | the validator allows a property name of 200 characters, the column 100: an accepted create from a stored owner with a longer name answers "Error creating property: " and the database's message, and neither table changes |
| Pipeline.UpdatePropertyUnvalidated | src/Million.Application/Common/Behaviors/ValidationBehavior.cs:19-65 | the update command has no validator, so the stage returns the update handler's answer unchanged, whatever the command carries |
| Pipeline.NegativePriceStoppedBeforeHandler | src/Million.Application/Properties/Commands/UpdatePropertyPriceValidator.cs:9-13 | for an owner's own property, a negative price is answered 400 "Price must be greater than or equal to zero." by the validator, with the table unchanged; the handler alone would have answered the entity's exception message |
| Pipeline.SendDeleteProperty | src/Million.Application/Properties/Commands/DeletePropertyHandler.cs:21-56 | the delete request over the repository answers and writes what the validator-then-handler function prescribes |
| Pipeline.EmptyIdNeverReachesDelete | src/Million.Application/Properties/Commands/DeletePropertyValidator.cs:9-11 | an empty id is answered 400 "Property ID is required" whatever the table and token, and nothing is deleted |
| Pipeline.LongFileRefusedBeforeSave | src/Million.Application/PropertyImages/Commands/AddPropertyImageValidator.cs:14-16 | the validator's 500-character limit on a path is the column's: such a request is refused 400 with "File path cannot exceed 500 characters", the handler alone would fail at the save with the database's message, and the table is unchanged |
| Pipeline.FutureOrFreeSaleOnlyRefusedByValidator | src/Million.Application/PropertyTraces/Commands/AddPropertyTraceValidator.cs:7-30 | a future or zero-value sale whose row fits the columns would be recorded by the handler, but the request is refused 400 with the table unchanged |
| Pipeline.FutureBirthdayOnlyRefusedByValidator | src/Million.Application/Owners/Commands/CreateOwnerValidator.cs:17-19 | a birthday not in the past, on a row that fits the columns, would be stored by the owner handler, but the request is refused 400 with the table unchanged |
| Pipeline.SearchThroughValidation | src/Million.Application/Properties/Queries/SearchPropertiesValidator.cs:7-29 | an accepted search gets exactly the handler's page; a minimum above the maximum is answered with the validator's messages, the bound-order one among them, whatever the tables hold |
| PropertyCommandHandlers.ImageIds | src/Million.Domain/Entities/PropertyImage.cs:26-29 | the ids the image loop draws: one per path, the k-th being the k-th fresh GUID |
| PropertyCommandHandlers.ImagesAdded | src/Million.Application/Properties/Commands/CreatePropertyHandler.cs:56-63 | the image loop keeps the stored images as a prefix, adds at most one image per path, completes only if no path is blank and the table accepts every row, and with an unreachable table adds nothing |
| PropertyCommandHandlers.ImagesAddedStopsAtWidePath | src/Million.Application/Properties/Commands/CreatePropertyHandler.cs:56-63 | a path wider than its 500-unit column stops the image loop with an exception |
| PropertyCommandHandlers.AddImages | src/Million.Application/Properties/Commands/CreatePropertyHandler.cs:56-63 | the loop over the repository throws and writes exactly what the image-loop function prescribes |
| PropertyCommandHandlers.CreateProperty | src/Million.Application/Properties/Commands/CreatePropertyHandler.cs:28-71 | the method's answer and new property and image tables are those of the handler's outcome function |
| PropertyCommandHandlers.UpdateProperty | src/Million.Application/Properties/Commands/UpdatePropertyHandler.cs:21-59 | the method's answer and new property table are those of the handler's outcome function |
| PropertyCommandHandlers.UpdatePropertyPrice | src/Million.Application/Properties/Commands/UpdatePropertyPriceHandler.cs:21-55 | the method's answer and new property table are those of the handler's outcome function |
| PropertyCommandHandlers.DeleteProperty | src/Million.Application/Properties/Commands/DeletePropertyHandler.cs:21-56 | the method's answer and new property table are those of the handler's outcome function |
| PropertyCommandHandlers.ImagesAddedSucceeds | src/Million.Application/Properties/Commands/CreatePropertyHandler.cs:56-63 | with non-blank paths of at most 500 UTF-16 units, fresh distinct ids and, when there is any path, a reachable table, the image loop runs to its end |
| PropertyCommandHandlers.ImagesAddedNeedsFreshIds | src/Million.Application/Properties/Commands/CreatePropertyHandler.cs:56-63 | an image loop that runs to its end drew ids that no stored image had and that differ from each other |
| PropertyCommandHandlers.CreateAccepted | src/Million.Application/Properties/Commands/CreatePropertyHandler.cs:33-63 | a caller whose token names a stored owner, sending a non-blank name and address, a non-negative price, details that fit the property columns and non-blank image paths that fit theirs, over reachable tables with fresh ids, gets the new property's id (the image table need not be reachable when there are no paths) |
| PropertyCommandHandlers.CreateSucceedsIff | src/Million.Application/Properties/Commands/CreatePropertyHandler.cs:29-70 | no owner id in the token answers 401 "Owner ID not found in token" with both tables unchanged; the create answers the new id iff the token's owner is stored, the owner and property tables (and the image table when there are paths) are reachable, name and address are not blank, the price is not negative, the details fit the columns, every path is non-blank and at most 500 units, and every drawn id is fresh |
| PropertyCommandHandlers.NewPropertyFits | src/Million.Infrastructure/Persistence/Sql/Configurations/PropertyConfiguration.cs:13-30 | the new property's row fits its columns iff the command's name, description, address and price do: the generated code always fits its 50-unit column |
| PropertyCommandHandlers.CreateTooWide | src/Million.Application/Properties/Commands/CreatePropertyHandler.cs:45-70 | details the entity accepts but the columns do not hold fail the create at the save with "Error creating property: " and the database's message, and neither table changes |
| PropertyCommandHandlers.CreateEffect | src/Million.Application/Properties/Commands/CreatePropertyHandler.cs:45-63 | a successful create appends exactly the new property, owned by the caller, and one enabled image per path in the command's order |
| PropertyCommandHandlers.CreateNoRollback | src/Million.Application/Properties/Commands/CreatePropertyHandler.cs:54-70 | a blank image path fails the request with 400 after the property is stored, and the property stays |
| PropertyCommandHandlers.CreateNeedsOwner | src/Million.Application/Properties/Commands/CreatePropertyHandler.cs:39-43 | a token naming no stored owner answers 400 "Owner with ID … does not exist" and writes nothing |
| PropertyCommandHandlers.UpdateEffect | src/Million.Application/Properties/Commands/UpdatePropertyHandler.cs:21-59 | an update succeeds iff the caller owns the stored property, the entity accepts the details and the changed row fits the columns; then that row alone takes the new fields; any other answer leaves the table as it was |
| PropertyCommandHandlers.UpdatePriceEffect | src/Million.Application/Properties/Commands/UpdatePropertyPriceHandler.cs:21-55 | a price change succeeds iff the caller owns the stored property, the price is not negative and the changed row fits the columns; then only that row's price changes; otherwise the table is unchanged |
| Pipeline.DeletedPropertyReadsNotFound | src/Million.Application/PropertyImages/Queries/GetPropertyImagesHandler.cs:23-43 | after a successful delete, the image list, the trace list and the detail of that id all answer 404, whatever the image, trace and owner tables hold |
| PropertyCommandHandlers.DeleteEffect | src/Million.Application/Properties/Commands/DeletePropertyHandler.cs:21-56 | a delete succeeds iff the caller owns the stored property; the id is then gone and every other id is found as before; "Failed to delete property" is never the answer |
| PropertyCommandValidators.NameRule | src/Million.Application/Properties/Commands/CreatePropertyValidator.cs:9-13 | "Property name is required" iff blank, the length message iff over 200 characters, nothing else |
| PropertyCommandValidators.DescriptionRule | src/Million.Application/Properties/Commands/CreatePropertyValidator.cs:15-17 | a description fails iff over 1000 characters, with the one length message |
| PropertyCommandValidators.AddressRule | src/Million.Application/Properties/Commands/CreatePropertyValidator.cs:19-23 | "Address is required" iff blank, the length message iff over 500 characters, nothing else |
| PropertyCommandValidators.PriceRule | src/Million.Application/Properties/Commands/CreatePropertyValidator.cs:25-29 | "Price must be greater than 0" iff the price is not positive, the cap message iff above 99,999,999,999 |
| PropertyCommandValidators.YearRule | src/Million.Application/Properties/Commands/CreatePropertyValidator.cs:31-35 | the year fails iff not after 1800 or more than five years after the current year, each with its message |
| PropertyCommandValidators.CreatePropertyFailures | src/Million.Application/Properties/Commands/CreatePropertyValidator.cs:7-36 | no message iff every field rule passes; a message is reported iff one of the five rules reports it |
| PropertyCommandValidators.UpdatePropertyPriceFailures | src/Million.Application/Properties/Commands/UpdatePropertyPriceValidator.cs:9-13 | no message iff the id is not empty and the price not negative; each rule's message iff it fails; both when both fail |
| PropertyCommandValidators.DeletePropertyFailures | src/Million.Application/Properties/Commands/DeletePropertyValidator.cs:9-11 | no message iff the id is not empty, otherwise exactly "Property ID is required" |
| PropertyCommandValidators.AcceptedCreateIsConstructible | src/Million.Application/Properties/Commands/CreatePropertyValidator.cs:7-36 | an accepted create command always gets past `Property.Create`, with a positive price |
| PropertyCommandValidators.ZeroPriceOnlyRefusedByValidator | src/Million.Application/Properties/Commands/CreatePropertyValidator.cs:25-29 | a zero price is refused by the validator although the entity would store it |
| PropertyCommandValidators.ImagesNotValidated | src/Million.Application/Properties/Commands/CreatePropertyValidator.cs:7-36 | the image list takes no part in validation |
| PropertyCommandValidators.AcceptedPriceIsStored | src/Million.Application/Properties/Commands/UpdatePropertyPriceValidator.cs:9-13 | an accepted price change never makes `ChangePrice` throw and stores the price; zero is accepted |
| PropertyEntity.Construct | src/Million.Domain/Entities/Property.cs:13-34 | a property is built iff name, address and code are not blank and the price is not negative; it then holds exactly the arguments |
| PropertyEntity.CodeInternal | src/Million.Domain/Entities/Property.cs:52 | the generated code has 22 characters: "PROP-", eight decimal digits, a dash and eight upper-case hex digits |
| PropertyEntity.Property.Load | src/Million.Domain/Entities/Property.cs:23-33 | a property object holding exactly the given fields |
| PropertyEntity.Property.New | src/Million.Domain/Entities/Property.cs:13-34 | the constructor builds a fresh object with the fields `Construct` yields, or throws its exception |
| PropertyEntity.Property.Create | src/Million.Domain/Entities/Property.cs:49-54 | `Create` builds a fresh object with a generated code and a fresh id, or throws the constructor's exception |
| PropertyEntity.Property.ChangePrice | src/Million.Domain/Entities/Property.cs:56-61 | the object's new fields and the exception are those of the price transition |
| PropertyEntity.Property.UpdateDetails | src/Million.Domain/Entities/Property.cs:63-78 | the object's new fields and the exception are those of the details transition |
| PropertyEntity.ConstructorCheckOrder | src/Million.Domain/Entities/Property.cs:15-22 | name, address, code and price are checked in that order, and each rejection names the first failing argument |
| PropertyEntity.ZeroPriceAnyYear | src/Million.Domain/Entities/Property.cs:13-34 | a zero price is accepted, and any year is stored as given |
| PropertyEntity.CreateRejects | src/Million.Domain/Entities/Property.cs:49-54 | `Create` succeeds iff name and address are not blank and the price is not negative: the generated code is never blank |
| PropertyEntity.CodeInternalDate | src/Million.Domain/Entities/Property.cs:52 | the date digits of a generated code read back as the year, month and day it was generated on |
| PropertyEntity.ChangePriceEffect | src/Million.Domain/Entities/Property.cs:56-61 | `ChangePrice` throws iff the price is negative, and then changes nothing; otherwise only the price changes |
| PropertyEntity.UpdateDetailsEffect | src/Million.Domain/Entities/Property.cs:63-78 | `UpdateDetails` throws iff name or address is blank or the price negative, and then changes nothing; otherwise it replaces the five detail fields and keeps id, owner, code and creation time |
| PropertyEntity.MutatorsKeepInvariant | src/Million.Domain/Entities/Property.cs:56-78 | neither mutator breaks what the constructor established |
| PropertyImageEntity.Construct | src/Million.Domain/Entities/PropertyImage.cs:10-19 | an image is built iff the file is not blank; otherwise "File is required" for `file` |
| PropertyImageEntity.PropertyImage.Load | src/Million.Domain/Entities/PropertyImage.cs:15-18 | an image object holding exactly the given fields |
| PropertyImageEntity.PropertyImage.New | src/Million.Domain/Entities/PropertyImage.cs:10-19 | the constructor builds a fresh object with the fields `Construct` yields, or throws its exception |
| PropertyImageEntity.PropertyImage.Toggle | src/Million.Domain/Entities/PropertyImage.cs:31 | the object's new fields are those of the toggle transition |
| PropertyImageEntity.CreateDefaultsToEnabled | src/Million.Domain/Entities/PropertyImage.cs:26-29 | `Create` without a flag builds an enabled image |
| PropertyImageEntity.ToggleInvolution | src/Million.Domain/Entities/PropertyImage.cs:31 | `Toggle` negates the flag, touches nothing else, and toggling twice restores the image |
| PropertyImageFeature.AddPropertyImageFailures | src/Million.Application/PropertyImages/Commands/AddPropertyImageValidator.cs:7-18 | each message iff its rule fails (empty id, blank path, path over 500 characters); no message iff all pass |
| PropertyImageFeature.AddPropertyImage | src/Million.Application/PropertyImages/Commands/AddPropertyImageHandler.cs:25-63 | the method's answer and new image table are those of the handler's outcome function |
| PropertyImageFeature.AddImageEffect | src/Million.Application/PropertyImages/Commands/AddPropertyImageHandler.cs:25-63 | adding succeeds iff the caller owns the stored property, the path is not blank and fits its 500-unit column, and the table is reachable without the new id; then exactly that image is appended and its id returned; otherwise nothing changes |
| PropertyImageFeature.PropertyImagesAnswer | src/Million.Application/PropertyImages/Queries/GetPropertyImagesHandler.cs:23-43 | a missing property is answered 404 whatever the image table holds; a stored one gets exactly its images |
| PropertyImageFeature.AddedImageIsListed | src/Million.Application/PropertyImages/Queries/GetPropertyImagesHandler.cs:33-42 | an image added through the handler is listed for its property afterwards |
| PropertyPersistence.Matching | src/Million.Infrastructure/Persistence/Sql/Repositories/PropertyRepository.cs:69-79 | the test value agrees with the criteria predicate on every property |
| PropertyPersistence.Offset | src/Million.Infrastructure/Persistence/Sql/Repositories/PropertyRepository.cs:85 | the number of rows before page n of size s is non-negative for positive n and s |
| PropertyPersistence.Page | src/Million.Infrastructure/Persistence/Sql/Repositories/PropertyRepository.cs:85-86 | a page holds exactly `PageLength` consecutive rows starting at `PageStart`, the offset `(pageNumber - 1) * pageSize` or 0 when that is not positive; it never exceeds its size or the rows and is empty for a size at or below zero |
| PropertyPersistence.PropertyRepository.constructor | src/Million.Infrastructure/Persistence/Sql/Repositories/PropertyRepository.cs:13-16 | a repository over the given rows and fault |
| PropertyPersistence.PropertyRepository.Lookup | src/Million.Infrastructure/Persistence/Sql/Repositories/PropertyRepository.cs:18-24 | throws iff unreachable; otherwise non-null iff some property has the id, and then that stored property |
| PropertyPersistence.PropertyRepository.GetByIdAsync | src/Million.Infrastructure/Persistence/Sql/Repositories/PropertyRepository.cs:18-24 | answers what `Lookup` finds, as a fresh entity object |
| PropertyPersistence.PropertyRepository.SearchAsync | src/Million.Infrastructure/Persistence/Sql/Repositories/PropertyRepository.cs:33-57 | throws iff unreachable; otherwise every stored property matching all present criteria, and only those |
| PropertyPersistence.PropertyRepository.SearchPagedAsync | src/Million.Infrastructure/Persistence/Sql/Repositories/PropertyRepository.cs:59-90 | throws iff the table is unreachable; the count is the number of all matches; the page is the matches in table order from index `PageStart` on, `PageLength` of them, so at most `pageSize`; wherever the offset fits in 32 bits the page equals `PageAsWritten`, the source's own computation |
| PropertyPersistence.PropertyRepository.ExistsAsync | src/Million.Infrastructure/Persistence/Sql/Repositories/PropertyRepository.cs:92-95 | throws iff unreachable; otherwise true iff some property has the id |
| PropertyPersistence.PropertyRepository.CodeInternalExistsAsync | src/Million.Infrastructure/Persistence/Sql/Repositories/PropertyRepository.cs:97-105 | true iff a property other than the excluded one carries the code |
| PropertyPersistence.PropertyRepository.GetByOwnerIdAsync | src/Million.Infrastructure/Persistence/Sql/Repositories/PropertyRepository.cs:107-113 | exactly the owner's stored properties |
| PropertyPersistence.PropertyRepository.AddAsync | src/Million.Infrastructure/Persistence/Sql/Repositories/PropertyRepository.cs:115-120 | the new table and the answer are those of inserting the property's row: appended, or rejected with a `DbUpdateException` for a duplicate key or a row the columns do not hold (name 100, description 500, address 200, code 50 UTF-16 units, price `decimal(18,2)`) |
| PropertyPersistence.PropertyRepository.UpdateAsync | src/Million.Infrastructure/Persistence/Sql/Repositories/PropertyRepository.cs:122-127 | the new table and the answer are those of replacing the row with the property's id; a missing id throws `DbUpdateConcurrencyException`, a row the columns do not hold throws `DbUpdateException`, and either leaves the table unchanged |
| PropertyPersistence.PropertyRepository.DeleteAsync | src/Million.Infrastructure/Persistence/Sql/Repositories/PropertyRepository.cs:129-137 | the new table and the answer are those of removing the row with that id (false and no change when absent) |
| PropertyPersistence.FilteredIsConjunction | src/Million.Infrastructure/Persistence/Sql/Repositories/PropertyRepository.cs:69-79 | the four conditional `Where` calls select exactly the properties matching every present criterion |
| PropertyPersistence.FilteredIsWhereOfAll | src/Million.Infrastructure/Persistence/Sql/Repositories/PropertyRepository.cs:69-79 | the four conditional `Where` calls select what one `Where` with the conjunction of the four criterion tests selects |
| PropertyPersistence.StepIsWhere | src/Million.Infrastructure/Persistence/Sql/Repositories/PropertyRepository.cs:69-70 | one conditional step is a `Where` whose test accepts everything when the criterion is absent |
| PropertyPersistence.NoCriteriaKeepAll | src/Million.Infrastructure/Persistence/Sql/Repositories/PropertyRepository.cs:69-73 | with no criterion, or only blank fragments, the search returns the whole table in order |
| PropertyPersistence.SearchCountMatchesUnpaged | src/Million.Infrastructure/Persistence/Sql/Repositories/PropertyRepository.cs:81-87 | a page never holds more rows than the count reported beside it, and the count never exceeds the table |
| PropertyPersistence.PageOffsetOverflow | src/Million.Infrastructure/Persistence/Sql/Repositories/PropertyRepository.cs:85 | as written, page 1073741825 of size 4 wraps to offset 0 and answers the first page, where the intended answer is empty |
| PropertyPersistence.PageAsWrittenInRange | src/Million.Infrastructure/Persistence/Sql/Repositories/PropertyRepository.cs:85 | where the offset fits in 32 bits, the page as written and the corrected page agree |
| PropertyPersistence.PagesTile | src/Million.Infrastructure/Persistence/Sql/Repositories/PropertyRepository.cs:85-86 | the first k pages of a positive size, one after the other, are the first k·size rows: pages neither overlap nor skip |
| PropertyQueries.PriceBoundsRules | src/Million.Application/Properties/Queries/SearchPropertiesValidator.cs:9-20 | each bound message iff that bound is present and negative; the order message iff both are present and min > max |
| PropertyQueries.FilterLengthRules | src/Million.Application/Properties/Queries/SearchPropertiesValidator.cs:22-28 | each length message iff that filter is not blank and too long (100 for name, 200 for address) |
| PropertyQueries.SearchPropertiesFailures | src/Million.Application/Properties/Queries/SearchPropertiesValidator.cs:7-29 | no message iff the query is accepted; a message iff one of the bound or length rules reports it |
| PropertyQueries.PagingNotValidated | src/Million.Application/Properties/Queries/SearchPropertiesValidator.cs:7-29 | page number and size take no part in validation |
| PropertyQueries.NoFiltersNoFailures | src/Million.Application/Properties/Queries/SearchPropertiesValidator.cs:7-29 | a query without any filter is accepted |
| PropertyQueries.OwnerNameOf | src/Million.Application/Properties/Queries/SearchPropertiesHandler.cs:54 | the owner's name when the owner is stored, "Unknown" when not |
| PropertyQueries.TraceDtos | src/Million.Application/Properties/Queries/GetPropertyByIdHandler.cs:57 | one DTO per trace, in the traces' order |
| PropertyQueries.Enriched | src/Million.Application/Properties/Queries/SearchPropertiesHandler.cs:46-64 | the loop throws iff the page is not empty and the owner or image table is unreachable (the owner's fault first); otherwise one DTO per property, with its owner's name and exactly its images |
| PropertyQueries.SearchProperties | src/Million.Application/Properties/Queries/SearchPropertiesHandler.cs:26-78 | the method answers what the handler's outcome function does |
| PropertyQueries.EnrichPage | src/Million.Application/Properties/Queries/SearchPropertiesHandler.cs:46-64 | the loop over the repositories answers what the enrichment function does |
| PropertyQueries.SearchResult | src/Million.Application/Properties/Queries/SearchPropertiesHandler.cs:26-78 | a successful search echoes page number and size, counts every match before paging, and lists exactly the requested window of the matches in table order (`PageLength` of them from index `PageStart` on, at most pageSize), each as its DTO with its owner's name and exactly its own images |
| PropertyQueries.PropertyDetail | src/Million.Application/Properties/Queries/GetPropertyByIdHandler.cs:29-65 | a stored property's detail carries its fields, its owner's name or "Unknown", exactly its images and exactly its traces, newest sale first |
| PropertyQueries.TracesOfProperty | src/Million.Application/PropertyTraces/Queries/GetPropertyTracesHandler.cs:33-42 | the trace DTOs of a property are one per trace of it, none of another's, newest sale first |
| PropertyQueries.DetailMissingReadsNothingElse | src/Million.Application/Properties/Queries/GetPropertyByIdHandler.cs:33-38 | a missing property is answered 404 whatever the owner, image and trace tables hold |
| PropertyQueries.Listed | src/Million.Application/Properties/Queries/GetPropertiesByOwnerIdHandler.cs:40-57 | the listing loop throws iff there are properties and the image table is unreachable; otherwise one DTO per property under the owner's name with its images |
| PropertyQueries.ListOwned | src/Million.Application/Properties/Queries/GetPropertiesByOwnerIdHandler.cs:38-58 | the loop over the owner's properties returns what the listing function gives: one DTO per property with its images, or the first exception the image table raises |
| PropertyQueries.GetPropertiesByOwnerId | src/Million.Application/Properties/Queries/GetPropertiesByOwnerIdHandler.cs:26-65 | the method answers what the handler's outcome function does |
| PropertyQueries.OwnerListing | src/Million.Application/Properties/Queries/GetPropertiesByOwnerIdHandler.cs:26-65 | a stored owner's listing holds exactly that owner's properties under the owner's name; an owner without properties gets an empty list |
| PropertyTraceEntity.Construct | src/Million.Domain/Entities/PropertyTrace.cs:10-26 | a trace is built iff the name is not blank and value and tax are not negative; it then holds exactly the arguments |
| PropertyTraceEntity.Created | src/Million.Domain/Entities/PropertyTrace.cs:35-38 | `Create` stores the property, date, name and amounts it was given under a fresh id |
| PropertyTraceEntity.CheckOrder | src/Million.Domain/Entities/PropertyTrace.cs:13-18 | name, value and tax are checked in that order, each rejection naming the first failing argument |
| PropertyTraceEntity.ZeroAmountsAccepted | src/Million.Domain/Entities/PropertyTrace.cs:15-18 | zero value and zero tax are accepted |
| PropertyTraceFeature.AddPropertyTraceFailures | src/Million.Application/PropertyTraces/Commands/AddPropertyTraceValidator.cs:7-30 | each of the six messages iff its rule fails; no message iff all pass |
| PropertyTraceFeature.AcceptedTraceConstructs | src/Million.Application/PropertyTraces/Commands/AddPropertyTraceHandler.cs:49-57 | a command the validator accepts always gets past the trace's constructor |
| PropertyTraceFeature.AddPropertyTrace | src/Million.Application/PropertyTraces/Commands/AddPropertyTraceHandler.cs:25-65 | the method's answer and new trace table are those of the handler's outcome function |
| PropertyTraceFeature.AddTraceEffect | src/Million.Application/PropertyTraces/Commands/AddPropertyTraceHandler.cs:25-65 | recording succeeds iff the caller owns the stored property, the trace's checks pass, the name fits its 100-unit column, value and tax fit `decimal(18,2)`, and the table is reachable without the new id; then exactly that sale is appended; otherwise nothing changes |
| PropertyTraceFeature.ValidCommandOfOwnerIsRecorded | src/Million.Application/PropertyTraces/Commands/AddPropertyTraceHandler.cs:25-65 | an owner's validated command whose row fits the trace columns, over a reachable table with a fresh id, is recorded |
| PropertyTraceFeature.NameBetweenLimitsFailsAtSave | src/Million.Application/PropertyTraces/Commands/AddPropertyTraceHandler.cs:49-64 | the validator allows a trace name of 200 characters, the column 100: an owner's valid command with a longer name answers "Error adding property trace: " and the database's message, and nothing is stored |
| PropertyTraceFeature.PropertyTracesAnswer | src/Million.Application/PropertyTraces/Queries/GetPropertyTracesHandler.cs:23-43 | a missing property is answered 404 whatever the trace table holds; a stored one gets one DTO per sale of it, none of another's, newest first |
| Results.FailWithRendering | src/Million.Application/Properties/Commands/CreatePropertyHandler.cs:67-70 | `Result.Fail(message)` fails, reports 400 and displays its message |
| Results.WithErrorRendering | src/Million.Application/Common/Extensions/ResultExtensions.cs:17-22 | one error with the given status code and kind; the result reports that code and displays the message |
| Results.UnauthorizedRendering | src/Million.Application/Common/Extensions/ResultExtensions.cs:31-32 | one error with code 401 and its kind; displays the message |
| Results.NotFoundRendering | src/Million.Application/Common/Extensions/ResultExtensions.cs:37-38 | one error with code 404 and its kind; displays the message |
| Results.BadRequestRendering | src/Million.Application/Common/Extensions/ResultExtensions.cs:43-44 | one error with code 400 and its kind; displays the message |
| Results.ForbiddenRendering | src/Million.Application/Common/Extensions/ResultExtensions.cs:49-50 | one error with code 403 and its kind; displays the message |
| Results.InternalServerErrorRendering | src/Million.Application/Common/Extensions/ResultExtensions.cs:55-56 | one error with code 500 and its kind; displays the message |
| Results.ValidationErrorRendering | src/Million.Application/Common/Extensions/ResultExtensions.cs:61-62 | one validation error with code 400; displays the message |
| Results.ValidationErrorsIn | src/Million.Application/Common/Extensions/ResultExtensions.cs:101-116 | the validation errors of a list, and only those |
| Results.MessagesOf | src/Million.Application/Common/Extensions/ResultExtensions.cs:101-116 | the errors' messages, in order |
| Results.GetStatusCode | src/Million.Application/Common/Extensions/ResultExtensions.cs:77-99 | 200 for a success; a failure whose first error has no explicit code but a kind answers 401 for Unauthorized, 404 for NotFound, 403 for Forbidden, 500 for InternalServerError and 400 for any other kind |
| Results.GetFirstErrorMessage | src/Million.Application/Common/Extensions/ResultExtensions.cs:101-116 | "An error occurred" for a success; a failure without validation errors displays its first error's message |
| Results.SuccessRendering | src/Million.Application/Common/Extensions/ResultExtensions.cs:77-116 | every success renders as 200 with the generic message |
| Results.StatusCodeFollowsFirstError | src/Million.Application/Common/Extensions/ResultExtensions.cs:77-99 | the status code of a failure depends only on its first error |
| Results.FailureStatusCodes | src/Million.Application/Common/Extensions/ResultExtensions.cs:77-99 | a failure's code is the first error's explicit code; otherwise its kind's code: 401 Unauthorized, 404 NotFound, 403 Forbidden, 500 InternalServerError, 400 for BadRequest, ValidationError or an unknown kind; and 400 without any metadata |
| Results.ValidationErrorsInAll | src/Million.Application/Common/Extensions/ResultExtensions.cs:101-116 | a list of validation errors is kept whole by the filter |
| Results.ValidationErrorsInIdempotent | src/Million.Application/Common/Extensions/ResultExtensions.cs:101-116 | filtering twice is filtering once |
| Results.JoinedValidationMessage | src/Million.Application/Common/Extensions/ResultExtensions.cs:101-116 | with more than one validation error the display is their messages joined by "; ", whatever other errors come first |
| Results.FirstMessageOtherwise | src/Million.Application/Common/Extensions/ResultExtensions.cs:101-116 | with at most one validation error the display is the first error's message |
| Results.ValidationErrorsContents | src/Million.Application/Common/Extensions/ResultExtensions.cs:67-70 | one validation error with code 400 per message, in order; the result fails iff the list is not empty; all its errors are validation errors and carry the messages in order |
| Results.ValidationErrorsStatus | src/Million.Application/Common/Extensions/ResultExtensions.cs:67-99 | a failure built from a nonempty list of messages reports 400 |
| Results.ValidationErrorsJoined | src/Million.Application/Common/Extensions/ResultExtensions.cs:67-116 | several messages render as the messages joined by "; " |
| Results.ValidationErrorsSingle | src/Million.Application/Common/Extensions/ResultExtensions.cs:67-116 | a single message renders as itself |
| Store.IndexOf | src/Million.Infrastructure/Persistence/Sql/Repositories/PropertyRepository.cs:18-24 | the position of the first row with the key, and none iff no row has it |
| Store.Find | src/Million.Infrastructure/Persistence/Sql/Repositories/PropertyRepository.cs:18-24 | a row is found iff some row has the key, and then a stored row with that key |
| Store.Inserted | src/Million.Infrastructure/Persistence/Sql/Repositories/PropertyRepository.cs:115-120 | an insert succeeds iff the key is new, appending the row; otherwise a DbUpdateException and no change; unique keys stay unique |
| Store.Replaced | src/Million.Infrastructure/Persistence/Sql/Repositories/PropertyRepository.cs:122-127 | an update of a missing key throws a concurrency exception and changes nothing; otherwise the row is replaced in place and every other row stays |
| Store.Removed | src/Million.Infrastructure/Persistence/Sql/Repositories/PropertyRepository.cs:129-137 | true iff some row had the key; then exactly one row with the key is cut out and the others stay in order, none with that key remains under unique keys; false leaves the table as it was |
| Store.Add | src/Million.Infrastructure/Persistence/Sql/Repositories/PropertyRepository.cs:115-120 | through a repository: an unreachable table throws its fault first; otherwise the row is appended and its key returned iff its key is new and the row fits the table's columns, and a `DbUpdateException` leaves the table unchanged |
| Store.Update | src/Million.Infrastructure/Persistence/Sql/Repositories/PropertyRepository.cs:122-127 | through a repository: an unreachable table throws its fault first; otherwise succeeds iff a row has the key and the new row fits the columns; a missing key throws `DbUpdateConcurrencyException`, a too-wide row `DbUpdateException` |
| Store.Delete | src/Million.Infrastructure/Persistence/Sql/Repositories/PropertyRepository.cs:129-137 | through a repository: an unreachable table throws its fault with nothing removed; otherwise as the removal |
| Store.FindAfterInsert | src/Million.Infrastructure/Persistence/Sql/Repositories/PropertyRepository.cs:115-120 | an inserted row is found by its key, and every other lookup is unchanged |
| Store.FindAfterRemove | src/Million.Infrastructure/Persistence/Sql/Repositories/PropertyRepository.cs:129-137 | after a removal the key is not found, and every other key is found as before |
| Store.FindUnique | src/Million.Infrastructure/Persistence/Sql/Repositories/PropertyRepository.cs:18-24 | with unique keys the row at a position is the one its key finds |
| Store.FindAppend | src/Million.Infrastructure/Persistence/Sql/Repositories/PropertyRepository.cs:115-120 | after appending a row with a new key, that key finds it and every other lookup is unchanged |
| TracePersistence.Insert | src/Million.Infrastructure/Persistence/Sql/Repositories/PropertyTraceRepository.cs:26 | inserting into a newest-first sequence keeps it newest first and adds exactly the one trace |
| TracePersistence.ByDateDescending | src/Million.Infrastructure/Persistence/Sql/Repositories/PropertyTraceRepository.cs:26 | `OrderByDescending` yields a newest-first permutation of its input |
| TracePersistence.TracesOf | src/Million.Infrastructure/Persistence/Sql/Repositories/PropertyTraceRepository.cs:22-28 | newest first, exactly the property's traces |
| TracePersistence.TraceRepository.constructor | src/Million.Infrastructure/Persistence/Sql/Repositories/PropertyTraceRepository.cs:12-15 | a repository over the given rows and fault |
| TracePersistence.TraceRepository.GetByPropertyIdAsync | src/Million.Infrastructure/Persistence/Sql/Repositories/PropertyTraceRepository.cs:22-28 | throws iff unreachable; otherwise exactly the property's traces, newest sale first |
| TracePersistence.TraceRepository.GetLatestByPropertyIdAsync | src/Million.Infrastructure/Persistence/Sql/Repositories/PropertyTraceRepository.cs:30-36 | throws iff unreachable; otherwise null iff the property has no trace, and else one of its traces with no later sale |
| TracePersistence.TraceRepository.AddAsync | src/Million.Infrastructure/Persistence/Sql/Repositories/PropertyTraceRepository.cs:38-43 | the new table and the answer are those of inserting the trace's row: appended, or rejected with a `DbUpdateException` for a duplicate key, a name over 100 UTF-16 units, or a value or tax outside `decimal(18,2)` |
| TracePersistence.TraceRepository.DeleteAsync | src/Million.Infrastructure/Persistence/Sql/Repositories/PropertyTraceRepository.cs:52-60 | the new table and the answer are those of removing the row with that id |
| TracePersistence.SortIsStable | src/Million.Infrastructure/Persistence/Sql/Repositories/PropertyTraceRepository.cs:26 | for every sale date, the traces sold on it come out of the sort in exactly their table order (the sort is stable) |
| TracePersistence.InsertKeepsTies | src/Million.Infrastructure/Persistence/Sql/Repositories/PropertyTraceRepository.cs:26 | inserting a trace puts it ahead of the traces with its sale date and leaves every other date's traces as they were |
| TracePersistence.SortedUnchanged | src/Million.Infrastructure/Persistence/Sql/Repositories/PropertyTraceRepository.cs:26 | a sequence already newest first is left as it is |
| UserEntity.Construct | src/Million.Domain/Entities/User.cs:14-37 | a user is built iff e-mail, hash, role, first and last name are not blank, checked in that order, each rejection naming its argument with the source's message; it keeps the other fields as given, stores the e-mail lower-cased and starts active |
| UserEntity.User.Load | src/Million.Domain/Entities/User.cs:28-36 | a user object holding exactly the given fields |
| UserEntity.User.New | src/Million.Domain/Entities/User.cs:14-37 | the constructor builds a fresh object with the fields `Construct` yields, or throws its exception |
| UserEntity.User.Deactivate | src/Million.Domain/Entities/User.cs:59 | the object's new fields are those of the deactivation transition |
| UserEntity.User.Activate | src/Million.Domain/Entities/User.cs:60 | the object's new fields are those of the activation transition |
| UserEntity.User.UpdatePassword | src/Million.Domain/Entities/User.cs:62-67 | the object's new fields and the exception are those of the password transition |
| UserEntity.StoredEmailLowerCase | src/Million.Domain/Entities/User.cs:29 | the stored e-mail has no upper-case ASCII letter, and two e-mails differing only in ASCII case are stored alike |
| UserEntity.FactoryRoles | src/Million.Domain/Entities/User.cs:49-57 | `CreateOwner` gives role "Owner" and the owner's id, `CreateClient` role "Client" and no owner |
| UserEntity.ActivationIdempotent | src/Million.Domain/Entities/User.cs:59-60 | deactivate and activate set the flag whatever it was, are idempotent and change nothing else |
| UserEntity.UpdatePasswordEffect | src/Million.Domain/Entities/User.cs:62-67 | a blank hash throws and changes nothing; otherwise only the hash changes |
| ValidationBehavior.Present | src/Million.Application/Common/Behaviors/ValidationBehavior.cs:31-35 | the non-null failures' messages, and only those |
| ValidationBehavior.Rule | src/Million.Application/Properties/Commands/CreatePropertyValidator.cs:9-13 | a rule reports its one message iff the value fails it |
| ValidationBehavior.RequiredText | src/Million.Application/Properties/Commands/CreatePropertyValidator.cs:9-13 | `NotEmpty` then `MaximumLength`: the first message iff the text is blank, the second iff it is too long, no other message, at most two |
| ValidationBehavior.AsFailures | src/Million.Application/Common/Behaviors/ValidationBehavior.cs:28-32 | a validator's messages as non-null failures, in order |
| ValidationBehavior.Failures | src/Million.Application/Common/Behaviors/ValidationBehavior.cs:28-35 | a message is collected iff some validator reports it as a non-null failure |
| ValidationBehavior.Handle | src/Million.Application/Common/Behaviors/ValidationBehavior.cs:19-65 | with nothing collected the handler's result is returned unchanged; otherwise one validation error per collected message, in order |
| ValidationBehavior.FailuresAppend | src/Million.Application/Common/Behaviors/ValidationBehavior.cs:28-35 | the messages of several validators are those of each, in validator order |
| ValidationBehavior.PresentAll | src/Million.Application/Common/Behaviors/ValidationBehavior.cs:31-35 | failures with no null among them contribute exactly their messages |
| ValidationBehavior.NoFailuresIff | src/Million.Application/Common/Behaviors/ValidationBehavior.cs:31-37 | nothing is collected iff no validator reports a non-null failure |
| ValidationBehavior.NoValidatorsPassThrough | src/Million.Application/Common/Behaviors/ValidationBehavior.cs:24-65 | without validators the handler's result is returned unchanged |
| ValidationBehavior.ShortCircuit | src/Million.Application/Common/Behaviors/ValidationBehavior.cs:37-61 | when anything is collected the answer is the validation errors, 400, whatever the handler would answer |
| ValidationBehavior.SameErrorsForEveryShape | src/Million.Application/Common/Behaviors/ValidationBehavior.cs:43-61 | a plain `Result` and a `Result<T>` response receive the same errors |

## Left out

- HTTP controllers, routing, middleware, dependency injection and the MediatR dispatcher are not modelled. Each request is sent to its handler directly, through `Pipeline.Through` or `ValidationBehavior.Handle`.
- Async execution, cancellation tokens and concurrency between requests are not modelled. Each handler runs as one sequential step over the tables.
- The ownership check followed by the write is not atomic in the source. A race between two requests is out of scope.
- Clocks, `Guid.NewGuid` and the signed-in owner's id (`CurrentUserService`) are not modelled. They enter as parameters: `now`, `today`, the `CreateDraws` ids, and `ownerIdFromToken`.
- The password hasher and the JWT generator are not modelled. They enter `AuthFeature.Login` as uninterpreted functions.
- `UserRepository` is not modelled. Its `GetByEmailAsync` answer enters `AuthFeature.Login` as an input.
- AuthFeature.Login: the handler has no `catch`, so an exception from the user lookup escapes the handler. The model has no such path.
- `GetAllOwnersHandler`, the repositories' unused `GetAllAsync`/`UpdateAsync` for owners, images and traces, the file service, the database seeder, the Mapster mappings and the parts of the EF configurations other than the column widths and the cascade below (keys, indexes, the `UserConfiguration` widths, since the user repository is not modelled) are not modelled.
- The column widths of the property, image, trace and owner configurations are modelled: each repository's insert or replace is rejected with a `DbUpdateException` when a text column is wider than its `HasMaxLength`, or an amount leaves `decimal(18,2)` (amounts are whole numbers here, so that bound is 10^16 - 1). Some validator limits exceed the columns: a property name, description and address of up to 200, 1000 and 500 characters against columns of 100, 500 and 200, a trace name of 200 against 100, and an owner photo that is blank and so never length-checked. Such requests pass validation and fail at the save (`Pipeline.NameBetweenLimitsFailsAtSave`, `PropertyCommandHandlers.CreateTooWide`, `PropertyTraceFeature.NameBetweenLimitsFailsAtSave`, `OwnerFeature.BlankWidePhotoFailsAtSave`).
- `PaginationParameters`, `PaginatedResult<T>` and `PropertyImageDto` are not part of this model, because their sources are absent.
  - Paging takes the page number and size as two `int32` values.
  - `hasNextPage` and `hasPreviousPage` are not modelled.
  - Image DTOs are the image rows themselves.
- Decimal amounts are whole numbers, so fractional prices, values and taxes are not modelled.
- `DateTime` is a tick count. `DateTime.Now` and `DateTime.UtcNow` are not distinguished.
- Strings are sequences of Unicode scalar values. Length limits are measured in UTF-16 code units by `Common.Utf16Length`, as .NET `string.Length` and `nvarchar` do. An unpaired surrogate, which a .NET string may hold, is not representable.
  - `IsNullOrWhiteSpace` uses .NET's white-space set.
  - `ToLowerInvariant` and `ToUpper` are modelled for ASCII letters only.
- Search by name or address is an ordinal substring test. Case sensitivity of `LIKE` is left to the database collation, which may make it case-insensitive; the model does not capture that.
- Trace ordering: traces with equal sale dates keep table order, as LINQ's stable `OrderByDescending` does (`TracePersistence.SortIsStable`). The order SQL Server actually gives such ties is not modelled.
- Negative `Skip`/`Take` counts follow LINQ to Objects semantics. SQL Server raises an error for a negative `OFFSET`/`FETCH`, and that error path is not modelled.
- Repository failures are modelled by one constant `fault` per table. A table either always throws or never does. Consequences:
  - "Failed to delete property" after a successful lookup is unreachable.
  - The update handler's `UpdateAsync` failure after a successful lookup is unreachable (`PropertyCommandHandlers.DeleteEffect` states the former).
- PropertyCommandHandlers.DeleteProperty: does not model the database cascade of PropertyConfiguration.cs:44-60, which also deletes the property's images and traces. The model removes only the property row, so those image and trace rows stay behind. They cannot be observed: every modelled read of an image list, a trace list or a detail answers 404 for the missing property before it reads those tables (`Pipeline.DeletedPropertyReadsNotFound`), and the search and owner listing read images only for stored properties. New image and trace ids come from `Guid.NewGuid`, so they do not collide with the leftover rows.
- EF Core change tracking is simplified to the row operations in `Store`.
  - `SaveChangesAsync` is modelled as writing exactly one row; its row count is not modelled.
  - The `Include` of images and traces is replaced by explicit lookups.
- Commands never carry null strings, except the nullable fields (`photo` and the search filters), which are `Option`. The entity's description parameter is also an `Option`, for the constructor's `string?` and the `?? string.Empty` in `Property.UpdateDetails`; the handlers always pass a value.
- ValidationBehavior.Handle: the reflection branch for `Result<T>` responses is modelled as returning `Result<T>.Fail(errors)`. The fall-through that would run the handler if no `Fail` method were found is not modelled, because FluentResults always has that method.
- PropertyQueries.Enriched: an exception from the owner lookup fails the search, as the code does. Only a missing owner degrades to "Unknown".
- Common.GuidN: states the length of the "N" text, not the digits themselves. The digits matter only through `PropertyEntity.CodeInternal`, which states they are hex.
- PropertyPersistence.PropertyRepository.SearchPagedAsync and PropertyQueries.SearchOutcome: compute the page offset without overflow (`PropertyPersistence.Page`), the corrected half of the finding below. They agree with the source wherever `(pageNumber - 1) * pageSize` fits in 32 bits. When it does not, the source wraps the offset and may answer an earlier page, for example the first page for page 1073741825 of size 4; the model answers the window at the true offset, which is empty for any table shorter than that.
- TracePersistence.TraceRepository.GetLatestByPropertyIdAsync: states that the answer is a trace of the property with no later sale. It does not say which trace is chosen among equal dates.

## Findings

| source | as written | input that shows it | evidently intended | confidence | as-written member | corrected member |
|---|---|---|---|---|---|---|
| src/Million.Infrastructure/Persistence/Sql/Repositories/PropertyRepository.cs:85 | `Skip((PageNumber - 1) * PageSize)` is computed in unchecked 32-bit `int` arithmetic, so large page numbers wrap around | page number 1073741825 with page size 4: the offset 4294967296 wraps to 0, so the first page is answered | a page past the end is empty | not executed | PropertyPersistence.PageOffsetOverflow | PropertyPersistence.PagesTile |

`PropertyPersistence.PageAsWritten` is the skip as the source computes it, through `Common.Wrap32`.
`PropertyPersistence.Page` computes the offset without overflow, and the search uses it (see `SearchPagedAsync` under "## Left out").
`PropertyPersistence.PageAsWrittenInRange` shows the two agree wherever the offset fits in 32 bits.
