# Shipyard profile canonicalisation, in Dafny

Shipyard (Crypto Hub) is a talent directory. People publish a profile: a
name, a role, skills and contact links. This project models the part of the
system that keeps those profiles canonical, and proves what that part
promises:

- **Write path** (`Profiles`, `profiles.dfy`). The `POST` and `PATCH`
  handlers of `/api/profiles` turn a loosely typed JSON body into a row. They
  normalise the role (Spanish labels, English tags, fallback `Developer`),
  the tags (trimmed, no blanks, at most 30) and the links (`https://` added
  unless an http(s) scheme is there). `mapDbToApi` turns a stored row into
  the API shape. The handlers are methods of `ProfileStore`, a class over a
  table keyed by username. `POST` creates a row. `PATCH` upserts one.
- **Read path** (`Listing`, `listing.dfy`). The listing endpoint's defensive
  `toRole` and `toTags`, and its projection of the stored rows.
- **Directory page** (`Directory`, `directory.dfy`). The page normalises the
  loaded items' tags and filters them by availability, by role and by a
  case-insensitive substring search. It also computes each card's key.
- **Edit page** (`EditForm`, `edit_form.dfy`). The role ↔ Spanish label
  tables, the mapping from the loaded profile to the form (tags joined with
  `", "`) and the body it submits to `PATCH`.
- **Owner-keyed table** (`OwnerTable`, `owner_table.dfy`). `/api/profile`'s
  `POST` (create once) and `PUT` (update the caller's row). They are methods
  of `ProfileTable`, a class over users and records keyed by `userId`.

Supporting modules:

- `Text` models the JavaScript string built-ins the code relies on: `trim`
  with ECMAScript's white-space set, ASCII `toLowerCase`, `split`, `join`,
  `includes`, and the regular expression `/^https?:\/\//i`.
- `Seqs` models `Array.prototype.filter`.
- `Values` models JSON body values and the coercions `String(v ?? "")`,
  `Boolean(v)` and `s || undefined`.

The storage layer is abstract. A table is a Dafny `map`. A storage error that
a handler catches is a 500 reply (`StorageFault`). One that no handler
catches is `Crash`. The session and the user lookup are a parameter (the
session's email) and a `users` map. The request body is a value of type
`Body`.

The handlers store `avatarUrl`, `bio` and `location` as trimmed strings, so an
empty one is kept as "" (route.ts:161, 164-165).

## Model

| member | source | states |
|---|---|---|
| Profiles.NormalizeRole | src/app/api/profiles/route.ts:35-67 | the result is always one of the 8 valid roles; the trimmed input is looked up among the labels (Spanish labels plus every role for itself) and anything else becomes `Developer` |
| Profiles.NormalizeRoleSpanish | src/app/api/profiles/route.ts:48-55 | each Spanish label, including both spellings of "Creador de contenido", padded with any white space, resolves to its role |
| Profiles.NormalizeRoleLabel | src/app/api/profiles/route.ts:48-66 | any label of the table surrounded by white space resolves to what the table maps it to, because of the trim |
| Profiles.NormalizeRoleEnglish | src/app/api/profiles/route.ts:56-66 | `normalizeRole` is the identity on each valid role |
| Profiles.NormalizeRoleFallback | src/app/api/profiles/route.ts:65-66 | missing/blank input, `Mentor` and `Legal` all give `Developer` |
| Profiles.LabelsAreTrimmed | src/app/api/profiles/route.ts:49-64 | every key of the lookup table is non-empty and trimmed, so trimmed input can reach each of them |
| Profiles.NormalizeTags | src/app/api/profiles/route.ts:70-78 | at most 30 tags, each trimmed and non-empty, forming an order-preserving subsequence of the trimmed entries |
| Profiles.NormalizeTagsComplete | src/app/api/profiles/route.ts:70-78 | unless 30 tags are kept, every non-blank trimmed entry is kept as often as it occurs (duplicates too) |
| Profiles.NormalizeTagsOfText | src/app/api/profiles/route.ts:71-77 | a string normalises exactly as the list of its comma-separated pieces; a value that is neither string nor list gives `[]` |
| Profiles.NormalizeTagsKeepsCanonical | src/app/api/profiles/route.ts:72 | a list of at most 30 trimmed non-empty tags is its own normal form |
| Profiles.NormalizeTagsIdempotent | src/app/api/profiles/route.ts:70-78 | normalising the normalised tags again changes nothing |
| Profiles.NormalizeUrl | src/app/api/profiles/route.ts:81-86 | absent exactly when the trimmed input is blank; a defined result is trimmed and has an http(s) scheme; a scheme already there (any letter case) is kept, otherwise the result is `https://` + trimmed input |
| Profiles.NormalizeUrlIdempotent | src/app/api/profiles/route.ts:81-86 | normalising a normalised link gives it back |
| Profiles.BuildFields | src/app/api/profiles/route.ts:194-209 | every built field set is canonical; `fullName`, `avatarUrl`, `bio` and `location` are the trimmed `String(v ?? "")` of their body values; the role is `normalizeRole` of `category`, the tags `normalizeTags` of `skills`, each link `normalizeUrl` of its value; `available`, `hiring` and `investing` are the truthiness of theirs; a chat handle is absent exactly when its trimmed text is blank and is that text otherwise |
| Profiles.MapDbToApi | src/app/api/profiles/route.ts:93-127 | null `username`/`fullName`/`avatarUrl` read as "" and non-null ones pass through; null category reads as `Developer` and a stored one passes through unchecked; listed skills become the tags and anything else `[]`; `bio`, `location`, the three flags, the links and the chat handles pass through |
| Profiles.WrittenRowReadsBack | src/app/api/profiles/route.ts:157-218 | the item a write handler answers shows exactly the fields it wrote, with a valid role and canonical tags |
| Profiles.Upsert | src/app/api/profiles/route.ts:211-216 | corrected upsert: the row for the username becomes exactly the new data whether or not it existed; the key set gains only that username; no other row changes |
| Profiles.UpsertIdempotent | src/app/api/profiles/route.ts:211-216 | corrected upsert: repeating it with the same body changes nothing; the previous row never shows through |
| Profiles.UpsertKeepsCanonical | src/app/api/profiles/route.ts:157-216 | writing canonical fields under a trimmed non-empty username keeps the whole table canonical |
| Profiles.ToRow | src/app/api/profiles/route.ts:157-174 | the stored row has the username and every built field in its column, the tags as a list |
| Profiles.UpdateAsWritten | src/app/api/profiles/route.ts:211-213 | Prisma's update with the handler's `data`: every field other than the links and chat handles takes the new value; a defined link or chat handle takes the new value, and an `undefined` one keeps the stored value; with all five defined the result is the new data |
| Profiles.UpsertAsWritten | src/app/api/profiles/route.ts:211-216 | the upsert as written: the key set gains only the username; a new row is the data; an existing row gets `UpdateAsWritten`; no other row changes |
| Profiles.UpsertAsWrittenAgreesWhenAllPresent | src/app/api/profiles/route.ts:211-216 | when every link and chat handle is defined, the as-written upsert equals the corrected one |
| Profiles.BlankedLinkSurvivesAsWritten | src/app/api/profiles/route.ts:204-214 | with the handler's upsert as written, a blanked link leaves the stored link in place, while the corrected upsert clears it |
| Profiles.BlankedLinkCounterexample | src/app/api/profiles/route.ts:204-214 | the concrete row and body of the finding below |
| Profiles.ProfileStore.constructor | src/app/api/profiles/route.ts:157-211 | an empty, valid table |
| Profiles.ProfileStore.Post | src/app/api/profiles/route.ts:148-182 | blank username → 400 "El username es obligatorio.", then blank name → 400 "El nombre es obligatorio.", with no write; an existing username → 500 with no write; otherwise the row is added with the trimmed name and a 201 reply of its API shape; the table stays canonical |
| Profiles.ProfileStore.Patch | src/app/api/profiles/route.ts:185-222 | blank username → 400 with no write; otherwise the table becomes the corrected upsert of the built fields under the trimmed username and the reply is 200 with the row's API shape |
| Listing.ToRole | src/app/api/profiles/list/route.ts:52-55 | null reads as `Developer`; a stored value passes through unchecked |
| Listing.ToTags | src/app/api/profiles/list/route.ts:57-63 | no empty tags; a list gives an order-preserving subsequence of itself (no trim, no limit); text gives a subsequence of its trimmed comma-separated pieces, each trimmed; null gives `[]` |
| Listing.ToTagsKeepsListTags | src/app/api/profiles/list/route.ts:58 | a stored list loses none of its non-empty tags, each kept as often as it occurs |
| Listing.ToTagsKeepsTextTags | src/app/api/profiles/list/route.ts:59-61 | legacy text loses none of its non-blank trimmed pieces, each kept as often as it occurs |
| Listing.ReadOfWrittenTags | src/app/api/profiles/list/route.ts:58 | reading back the tags the write path stored gives them unchanged |
| Listing.WrittenTextTagsArePrefixOfRead | src/app/api/profiles/list/route.ts:59-61 | for legacy text, the write path's tags are a prefix of the read path's, and equal to them when there are at most 30 |
| Listing.ProjectRow | src/app/api/profiles/list/route.ts:93-109 | null username/name/avatar read as "" and non-null ones pass through; the role is `toRole` of the category and the tags `toTags` of the skills (so none is empty); `bio`, `location`, `available`, the links and the chat handles pass through; `hiring`/`investing` (not selected) are absent |
| Listing.ProjectRows | src/app/api/profiles/list/route.ts:72-93 | one item per row, in storage order |
| Listing.ListingAgreesWithWriteReply | src/app/api/profiles/list/route.ts:93-109 | for a row the write path stored, the listing item is the write reply less `hiring` and `investing` |
| Directory.ToCard | src/app/directory/page.tsx:43-46 | a list of tags is kept, any other value becomes `[]`; every other field is unchanged |
| Directory.NormalizeLoaded | src/app/directory/page.tsx:43-46 | one card per loaded item, in order |
| Directory.ListingTagsSurviveLoading | src/app/directory/page.tsx:43-46 | items from the listing keep their tags and role |
| Directory.Needle | src/app/directory/page.tsx:64 | the needle is lowercase, and it is empty exactly when the trimmed query is empty |
| Directory.Filtered | src/app/directory/page.tsx:63-82 | an order-preserving subsequence of the items; with `onlyAvailable` every card shown is available; with a role every card shown has it; each passing card is kept as often as it occurs |
| Directory.NoFilterShowsAll | src/app/directory/page.tsx:64-68 | blank query, role `all` and no availability filter show every item |
| Directory.Keep | src/app/directory/page.tsx:65-81 | a kept card is available when `onlyAvailable` is set, has the chosen role unless it is `all`, and contains the needle in its haystack unless the needle is empty |
| Directory.Haystack | src/app/directory/page.tsx:70-78 | the haystack is lowercase, starts with the lowercased name, and contains the lowercased name, handle, bio, location and every tag |
| Directory.KeepIsSearch | src/app/directory/page.tsx:68-80 | a card passing the flag and role tests is kept exactly when the needle occurs in the lowercased space-joined name, handle, bio, location and tags |
| Directory.MentorAndLegalAreNotRoles | src/app/directory/page.tsx:157-162 | `Mentor` and `Legal` are not valid roles |
| Directory.InvalidRoleFilterIsEmpty | src/app/directory/page.tsx:67 | filtering by a name that is not a valid role shows nothing over cards with valid roles |
| Directory.MentorAndLegalFiltersAreEmpty | src/app/directory/page.tsx:157-162 | over profiles stored by the write path and served by the listing, the `Mentor` and `Legal` filters always show nothing |
| Directory.ProfileKey | src/app/directory/page.tsx:11-14 | the key is the base, "-" and the decimal index, which follows the last "-" |
| Directory.KeyBase | src/app/directory/page.tsx:12 | the base is the handle when non-empty, and otherwise the name (default "profile"), "-" and the location (default "") |
| Directory.ProfileKeyDeterminesIndex | src/app/directory/page.tsx:11-14 | equal keys have equal indices, whatever the bases |
| Directory.KeysAreDistinct | src/app/directory/page.tsx:11-14 | the cards of one list get pairwise distinct keys |
| EditForm.NormalizeCategory | src/app/profile/edit/page.tsx:143-160 | the identity on each role and on anything outside the table |
| EditForm.CategoryRoundTrip | src/app/profile/edit/page.tsx:49-160 | for every role, `normalizeCategory(roleToEs[r]) == r` |
| EditForm.RenamedLabelsRoundTrip | src/app/profile/edit/page.tsx:144-149 | each Spanish option maps to its role |
| EditForm.RoleToEsCoversRoles | src/app/profile/edit/page.tsx:49-58 | `roleToEs` has exactly the 8 valid roles as keys |
| EditForm.SpanishOptionsAreRoles | src/app/profile/edit/page.tsx:144-149 | every Spanish option maps to a valid role |
| EditForm.NormalizeCategoryGivesRole | src/app/profile/edit/page.tsx:143-160 | every option normalises to a valid role, which the server's `normalizeRole` keeps |
| EditForm.LoadCategory | src/app/profile/edit/page.tsx:117 | a known role shows its label, an unknown one shows raw, a missing one as `Developer` |
| EditForm.UnknownRoleIsResetOnSave | src/app/profile/edit/page.tsx:117-167 | an unknown stored role passes through load and submit and the server resets it to `Developer` |
| EditForm.ToForm | src/app/profile/edit/page.tsx:112-128 | the skills field is the tags joined with ", ", the category comes from `LoadCategory`; `available`, `hiring` and `investing` are true exactly when stored true; username, name, avatar, bio, location, links and chat handles are the stored text or "" when absent |
| EditForm.SplitOfEditJoin | src/app/profile/edit/page.tsx:118 | splitting the ", " join on commas gives the tags, all but the first with a leading space |
| EditForm.TagsSurviveEditJoin | src/app/profile/edit/page.tsx:118 | a canonical, comma-free tag list survives the ", " join and the server's split, trim and filter unchanged |
| EditForm.SubmitBody | src/app/profile/edit/page.tsx:167 | the body carries the normalised category and the skills text as typed |
| EditForm.SubmitBodyTexts | src/app/profile/edit/page.tsx:167 | the body carries the form's texts under their names |
| EditForm.SubmitBodyChoices | src/app/profile/edit/page.tsx:167 | the body carries the normalised category, the skills text and the flags |
| EditForm.SubmitBodyLinks | src/app/profile/edit/page.tsx:167 | the body carries the links and chat handles |
| EditForm.LinkRoundTrip | src/app/profile/edit/page.tsx:120-122 | a stored link shown in the form and saved again is stored unchanged |
| EditForm.HandleRoundTrip | src/app/profile/edit/page.tsx:123-124 | a stored chat handle shown in the form and saved again is stored unchanged |
| EditForm.EditWithoutChangesKeepsProfile | src/app/profile/edit/page.tsx:112-173 | opening the edit page on a stored profile and saving it unchanged stores the same fields under the same username (no tag holding a comma) |
| OwnerTable.CreateRecord | src/app/api/profile/route.ts:17-19 | the record has the body's fields and `userId`; the session's id only when the body has no `userId` |
| OwnerTable.UpdateRecord | src/app/api/profile/route.ts:31-34 | the body's fields replace the stored ones; every other stored field stays |
| OwnerTable.UpdateKeepsOwner | src/app/api/profile/route.ts:31-34 | an update without `userId` keeps the record's owner |
| OwnerTable.BodyUserIdOverridesSession | src/app/api/profile/route.ts:18 | a body `userId` wins over the session's id |
| OwnerTable.ProfileTable.constructor | src/app/api/profile/route.ts:14 | an empty, valid table over the given users |
| OwnerTable.ProfileTable.Resolve | src/app/api/profile/route.ts:7-28 | no session email → 401 "Unauthorized"; an unknown email → 404 "User not found"; otherwise that user's id |
| OwnerTable.ProfileTable.Post | src/app/api/profile/route.ts:6-21 | refusals write nothing; an existing profile → 400 "Profile already exists"; a record whose `userId` is not a string (null included, a schema assumption) or is taken → uncaught failure, nothing written; otherwise exactly one record is added under its `userId`, and the caller has a profile afterwards when the body does not name another `userId` |
| OwnerTable.ProfileTable.Put | src/app/api/profile/route.ts:23-36 | refusals write nothing; a caller without a profile, or an updated record whose `userId` is not a string (null included, a schema assumption) or belongs to another record → uncaught failure, nothing written; otherwise only the caller's record changes and takes the body's fields; every other record is unchanged |
| Text.Trim | src/app/api/profiles/route.ts:48 | the result is trimmed, and a trimmed string is its own trim |
| Text.TrimIsInfix | src/app/api/profiles/route.ts:48 | what `trim` removes is white space at the two ends only |
| Text.TrimOfPadded | src/app/api/profiles/route.ts:75 | trimming a trimmed string padded with white space gives it back |
| Text.JoinSplit | src/app/api/profiles/route.ts:75 | joining a split with its separator gives the string back |
| Text.SplitJoin | src/app/api/profiles/route.ts:75 | splitting a join of separator-free pieces gives the pieces back |
| Text.Split | src/app/api/profiles/route.ts:75 | `split` gives at least one piece and no piece holds the separator |
| Text.Join | src/app/directory/page.tsx:77 | joining no pieces gives ""; a join starts with its first piece |
| Text.Lower | src/app/directory/page.tsx:78 | `toLowerCase` on ASCII: same length, no upper-case letter left, and each character unchanged or an upper-case letter moved to its lower-case form |
| Text.StartsWithIgnoringCase | src/app/api/profiles/route.ts:84 | the string starts with the prefix ignoring ASCII case exactly when the lowercased prefix is a prefix of the lowercased string |
| Text.HasHttpScheme | src/app/api/profiles/route.ts:84 | `/^https?:\/\//i` matches exactly when the lowercased string starts with `http://` or `https://` |
| Text.LowerJoinContainsPieces | src/app/directory/page.tsx:70-80 | the lowercased join contains each lowercased piece |
| Text.NatToString | src/app/directory/page.tsx:13 | the index renders as at least one decimal digit, one digit exactly below 10, and its last digit is the index mod 10 |
| Text.ContainsIff | src/app/directory/page.tsx:80 | `includes` holds exactly when the needle occurs at some position |
| Text.NatToStringInjective | src/app/directory/page.tsx:13 | distinct indices render as distinct digit strings |
| Values.ToStr | src/app/api/profiles/route.ts:48 | `String(v ?? "")`: missing/null gives "", a string itself, a boolean `"true"`/`"false"`, an empty array ""; an array of comma-free strings renders so that splitting on commas gives it back |
| Values.Truthy | src/app/api/profiles/route.ts:166 | `Boolean(v)`: missing/null is false, a boolean is itself, an array is true, a string is true exactly when non-empty |
| Values.TrimmedText | src/app/api/profiles/route.ts:82 | `String(v ?? "").trim()`: always trimmed; missing/null gives "", a string its trim (itself when already trimmed), a boolean `"true"`/`"false"` |
| Values.OrAbsent | src/app/api/profiles/route.ts:172 | `s || undefined`: absent exactly when the text is empty, the text itself otherwise |
| Seqs.Filter | src/app/directory/page.tsx:65 | `filter` gives an order-preserving subsequence of its input whose every element passes |
| Seqs.FilterCounts | src/app/directory/page.tsx:65 | `filter` keeps each passing element as often as the input has it, and nothing else |

## Left out

- HTTP, JSON parsing, `NextResponse`, `async` sequencing, React state, effects, cancellation flags, redirects and all rendering. They are I/O and UI.
- The storage engine. Timestamps, generated ids and concurrent requests are left out. The listing's `createdAt desc` order is the order of the row sequence given to `Listing.ProjectRows`.
- OwnerTable.ProfileTable.Post: the database schema is not part of this model, so only the uniqueness of `userId` is modelled, which `findUnique` on it implies. A body naming unknown columns, or a `userId` that no user has, would also be refused by the storage layer; the model stores such records.
- OwnerTable.ProfileTable.Put: the same schema checks are not modelled for updates.
- OwnerTable.ProfileTable.Post / Put: the model's table is keyed by owner, so a record whose `userId` is null (a body with `userId: null`) is modelled as refused by storage: an uncaught failure that writes nothing. If the `userId` column is nullable, which rows created through `/api/profiles` without a `userId` imply, the source instead stores an orphan record (`POST`) or detaches the caller's record (`PUT`) and replies 200.
- The text of a caught storage error (`errMsg`). It is the reply body `StorageFault`.
- Values.ToStr: JSON numbers and nested objects in a request body are not modelled. `Raw` covers missing/null, booleans, strings and arrays of strings.
- Text.Lower: folds only `A`–`Z`, not the rest of Unicode as `toLowerCase` does, so the directory search is modelled for ASCII case only. The regular expression's case-insensitive `http` prefix does not depend on this.
- `src/app/api/profiles/me/route.ts` is context, not core. `EditForm.LoadedOfRow` stands for what it answers: the stored columns under the front end's names, with non-list skills as `[]`.
- Profiles.ProfileStore and OwnerTable.ProfileTable: both routes write the same `profile` table, but the model keeps them as two independent maps. So it does not capture that a row created through `/api/profiles` has no `userId`, or that `/api/profile` can store any category (`Mentor` included) that the listing then serves.
- EditForm.UnknownRoleIsResetOnSave: the page's lookups in the object literals `roleToEs`, `esToEn` and `normalizeRole`'s `map` also find keys inherited from `Object.prototype`, such as a stored role `constructor`. The model's tables are plain maps, so its first ensures (an unknown role is shown raw) does not hold of the page for those names; the server still stores `Developer` for them.
- NextAuth, bcrypt, zod, sign-up and the profile creation page are not part of this model.

## Findings

| source | as written | input that shows it | evidently intended | confidence | as-written member | corrected member |
|---|---|---|---|---|---|---|
| src/app/api/profiles/route.ts:204-214 | `PATCH` builds a blank link or chat handle as `undefined` and passes the same object as the upsert's `update`, and Prisma leaves a field whose value is `undefined` unchanged, so a stored link can never be cleared from the edit form | row `ada` with `linkedin = "https://linkedin.com/in/ada"`, body `{ username: "ada", linkedin: "" }`: the row keeps the link | the upsert replaces every data field (a blank link is stored as absent), as the create branch does | not executed; high | Profiles.UpsertAsWritten, Profiles.BlankedLinkSurvivesAsWritten, Profiles.BlankedLinkCounterexample | Profiles.Upsert, Profiles.UpsertIdempotent, Profiles.ProfileStore.Patch |
