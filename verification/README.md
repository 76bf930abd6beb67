# Account records: validation, tag normalisation and the record store

A Dafny model of the core of a small client-side manager for user accounts.
An account is either local or backed by an LDAP directory. The model covers
two pieces:

- **Validation and the tag transformer** (`src/composables/useValidation.ts`).
  `validateAccount` checks the tags, login and password of a record. The
  password is checked only for local accounts. The result is stored in the
  record's error set. `hasErrors` reads that stored set back. `parseTags`
  turns a `;`-separated tag string into a list of tags: it splits the string,
  trims each piece and drops the empty ones. `stringifyTags` joins the tag
  texts with `"; "`.
- **The record store** (`src/stores/accountStore.ts`). It holds the list of
  records and the id counter. It adds and removes records. It flips the
  password-visibility flag and changes an account's type. It converts records
  to and from the persisted shape kept in the browser's storage entry.

Modules:

- `Strings` (`strings.dfy`): the JavaScript built-ins the code relies on.
  These are `trim` (the ECMAScript whitespace and line-terminator set),
  `split` on one character, and `join`.
- `Types` (`types.dfy`): the records of `src/types/index.ts`.
  - `UserAccount` is a class, because the form and the store change its
    fields in place. Its `id` never changes, so it is a `const`.
  - `AccountValue` is the value of all of its fields at one moment.
  - `StoredTags` is what a persisted `tags` field can hold when it is read
    back: a tag list, a legacy plain string, or nothing.
  - `StoredBlob` is the storage entry: a list of saved records, or content
    that cannot be deserialised.
- `Validation` (`validation.dfy`): the field rules and the tag transformer.
- `Store` (`account_store.dfy`): the per-record save and load mappings, and
  the class `AccountStore`. The class has the fields `accounts`, `nextId` and
  `stored`. `stored` stands for the storage entry `userAccounts`.

Two consequences of the code are proved:

- `Validation.CanonicalFormCanExceedLimit`: a stored list comes back with
  `"; "` between its tags. So a 50-character tags string like `x…x;y…y`
  passes the 50-character rule, but it fails the rule after it is saved and
  loaded again.
- `Store.IdReusedAfterReload`: after a load the counter is one more than the
  largest stored id, even when that is lower than before. Records 1 and 2 are
  added, record 2 is removed, and the list is loaded again: the next record
  added gets id 2 once more.

When the storage entry is absent or cannot be read, `loadFromStorage` leaves
the list and the counter as they were; it does not empty the list
(`src/stores/accountStore.ts:93`, `113-115`). `togglePasswordVisibility`,
`handleTypeChange` and `validateAccount` do not write to storage.

## Model

| member | source | states |
|---|---|---|
| `Strings.Trim` | src/composables/useValidation.ts:56 | the trimmed string neither starts nor ends with whitespace, and it is empty exactly when the input is blank |
| `Strings.TrimKeepsAbsent` | src/composables/useValidation.ts:56 | trimming adds no character: a character missing from the input is missing from the result |
| `Strings.Split` | src/composables/useValidation.ts:55 | splitting yields one more piece than the string has separators |
| `Strings.SplitPiecesLackSeparator` | src/composables/useValidation.ts:55 | no piece contains the separator |
| `Strings.JoinSplit` | src/composables/useValidation.ts:55 | joining the pieces with the separator gives back the original string |
| `Strings.SplitAtSeparator` | src/composables/useValidation.ts:55 | the pieces of `a;b` are the pieces of `a` followed by the pieces of `b` |
| `Strings.Join` | src/composables/useValidation.ts:65 | the joined length is the total length of the parts plus one separator between each neighbouring pair |
| `Types.AccountErrors.KeyCount` | src/composables/useValidation.ts:40 | the number of error keys is at most three, and it is zero exactly for the empty error record |
| `Validation.TrimAll` | src/composables/useValidation.ts:56 | trimming each piece keeps the number of pieces, and every result is trimmed |
| `Validation.KeepNonEmpty` | src/composables/useValidation.ts:57 | the filter never lengthens the list; every survivor is non-empty and comes from the input, and every non-empty input element survives |
| `Validation.TagTexts` | src/composables/useValidation.ts:17 | `split(';').map(trim).filter(non-empty)` yields at most (number of `;`) + 1 texts, each non-empty, trimmed and `;`-free |
| `Validation.Wrap` | src/composables/useValidation.ts:58 | wrapping texts as `{text}` items loses nothing: the texts of the result are the input |
| `Validation.ParseTags` | src/composables/useValidation.ts:53-59 | there are at most (number of `;`) + 1 tags, and every tag text is non-empty, trimmed and free of `;` |
| `Validation.Texts` | src/composables/useValidation.ts:65 | `tags.map(t => t.text)` keeps length and position: the i-th text wrapped back is the i-th tag |
| `Validation.StringifyTags` | src/composables/useValidation.ts:64-66 | no tags give `""`; n ≥ 1 tags give the total length of their texts plus 2·(n−1) for the `"; "` joiners |
| `Validation.ParseTagsAtSeparator` | src/composables/useValidation.ts:54-58 | parsing keeps left-to-right order and does not deduplicate: `parseTags(a;b)` is `parseTags(a)` followed by `parseTags(b)` |
| `Validation.ParseTagsLeadingWhitespace` | src/composables/useValidation.ts:56 | whitespace before the first tag never reaches a tag |
| `Validation.ParseCanonicalText` | src/composables/useValidation.ts:53-59 | a non-empty, trimmed, `;`-free text parses to exactly one tag holding it |
| `Validation.ParseTagsEmptyIff` | src/composables/useValidation.ts:17-18 | no tag is found exactly when the string holds nothing but whitespace and `;` |
| `Validation.ParseStringifyRoundTrip` | src/composables/useValidation.ts:53-66 | when every tag is non-empty, trimmed and `;`-free, `parseTags(stringifyTags(ts)) == ts` |
| `Validation.ParseCanonicalForm` | src/composables/useValidation.ts:53-66 | parsing the canonical form of a string gives the same tags as parsing the string |
| `Validation.CanonicalFormIdempotent` | src/composables/useValidation.ts:53-66 | `stringifyTags(parseTags(·))` is idempotent |
| `Validation.TagsError` | src/composables/useValidation.ts:11-21 | Required exactly when the tags are blank; MaxLength exactly when they are non-blank and over 50; NoTags exactly when they are non-blank, at most 50 and only whitespace and `;`; no error exactly when they are at most 50 and parse to at least one tag |
| `Validation.LoginError` | src/composables/useValidation.ts:24-28 | Required exactly when the login is blank; MaxLength exactly when it is non-blank and over 100 |
| `Validation.PasswordError` | src/composables/useValidation.ts:31-37 | an LDAP password never has an error; a local one is Required exactly when blank and MaxLength exactly when non-blank and over 100 |
| `Validation.ErrorsFor` | src/composables/useValidation.ts:8-37 | the error record is empty exactly when the record meets every field rule |
| `Validation.HasErrors` | src/composables/useValidation.ts:46-48 | true exactly when the stored error record has a field set |
| `Validation.ValidateAccount` | src/composables/useValidation.ts:7-41 | the record's errors are replaced by the freshly computed ones and nothing else changes; the result is true exactly when the record meets every rule, and it is the negation of `hasErrors` afterwards |
| `Validation.BlankLocalRecordErrors` | src/composables/useValidation.ts:11-37 | a blank local record gets three Required errors |
| `Validation.WellFormedExample` | src/composables/useValidation.ts:11-40 | `a;b;c` / `user` / local / `pw` gets no error |
| `Validation.SeparatorsOnlyExample` | src/composables/useValidation.ts:17-20 | `;;;` is not blank but gets the NoTags error |
| `Validation.DuplicateTagsKept` | src/composables/useValidation.ts:53-59 | `x;x` parses to two tags `x` |
| `Validation.CanonicalFormCanExceedLimit` | src/composables/useValidation.ts:11-21 | a 50-character tags string with no error gets MaxLength once normalised by `stringifyTags(parseTags(·))` |
| `Store.BlankAccount` | src/stores/accountStore.ts:23-31 | the added record has the given id, is local, has blank tags, login and password, the password hidden and no errors |
| `Store.WithType` | src/stores/accountStore.ts:59-65 | the type becomes the new one; id, tags, login and errors are kept; for LDAP the password is empty (so it has no error) and hidden; for local the password and the flag are kept |
| `Store.ToSaved` | src/stores/accountStore.ts:72-78 | id, login and type are kept; the record is in the current format (canonical tag list, password null exactly for LDAP); a stored password is the record's password |
| `Store.RestoredTags` | src/stores/accountStore.ts:98-100 | a list of canonical tags is stringified so that parsing it gives the list back; a legacy string is kept as it is; a missing value becomes `""` |
| `Store.FromSaved` | src/stores/accountStore.ts:96-104 | id, login and type are kept; the password is hidden and there are no errors; a null password becomes `""` and a present one is kept |
| `Store.MaxId` | src/stores/accountStore.ts:108 | the result is one of the ids and no id exceeds it |
| `Store.FirstIndexOf` | src/stores/accountStore.ts:50 | the position found holds the id and no earlier one does; nothing is found exactly when no record holds the id |
| `Store.SavedFormFields` | src/stores/accountStore.ts:72-78 | saving keeps length, order, ids, logins and types; it stores `parseTags` of the tags; the password is null exactly for LDAP accounts and is otherwise kept |
| `Store.LoadAfterSave` | src/stores/accountStore.ts:96-104 | loading a saved record gives the same record with canonical tags, an LDAP password emptied, the password hidden and no errors |
| `Store.SaveLoadSave` | src/stores/accountStore.ts:72-104 | saving after a load writes the same persisted record that was loaded |
| `Store.SaveAfterLoad` | src/stores/accountStore.ts:96-104 | a current-format persisted record survives load-then-save unchanged |
| `Store.LegacyTagsMigrated` | src/stores/accountStore.ts:98-100 | a legacy plain-string `tags` passes through the load and becomes a parsed tag list at the next save |
| `Store.LdapDropsPassword` | src/stores/accountStore.ts:59-65 | after switching to LDAP the password is empty, has no error and is stored as null; switching back to local does not restore it |
| `Store.BlankAccountIsInvalid` | src/stores/accountStore.ts:22-31 | a freshly added record fails all three Required rules |
| `Store.RestoreSample` | src/stores/accountStore.ts:96-109 | the entry `[{id:5, tags:[{text:"x"}], type:"LDAP", login:"bob", password:null}]` loads as one record with tags `x` and an empty password, and it sets the counter to 6 |
| `Store.AccountStore.constructor` | src/stores/accountStore.ts:8-9 | the store starts with no records and the counter at 1 |
| `Store.AccountStore.GetAccountById` | src/stores/accountStore.ts:129-131 | the result is the first record holding the id; there is none exactly when no record holds it |
| `Store.AccountStore.SaveToStorage` | src/stores/accountStore.ts:70-85 | the storage entry becomes the saved form of the current records; the list and the counter are unchanged |
| `Store.AccountStore.AddAccount` | src/stores/accountStore.ts:22-34 | exactly one fresh blank local record is appended with id = old counter; earlier records are unchanged; the counter grows by one; the list is saved; "ids below the counter" and "ids distinct" are preserved |
| `Store.AccountStore.RemoveAccount` | src/stores/accountStore.ts:39-44 | a valid index removes exactly that record, keeps the others in order and saves; any other index changes nothing; the counter never changes; both id invariants are preserved |
| `Store.AccountStore.TogglePasswordVisibility` | src/stores/accountStore.ts:49-54 | the flag of the first record holding the id is flipped; no other field, record or store state changes, and nothing changes when no record holds the id |
| `Store.AccountStore.HandleTypeChange` | src/stores/accountStore.ts:59-65 | the type is set; for LDAP the password becomes empty and the flag false; for local, everything else is kept |
| `Store.AccountStore.LoadFromStorage` | src/stores/accountStore.ts:90-116 | for a readable entry, the records become fresh objects built by the load mapping; the counter becomes max id + 1, or stays put for an empty list; ids are below the counter; ids are distinct exactly when the stored ones are. For an absent or unreadable entry, nothing changes |
| `Store.AccountStore.ClearAllAccounts` | src/stores/accountStore.ts:121-124 | the list is emptied and the storage entry removed; the counter is kept |
| `Store.AddTwoRemoveSecond` | src/stores/accountStore.ts:22-44 | adding two records to a new store and removing the second leaves the counter at 3 and the entry holding record 1 alone; the removed id was 2 |
| `Store.IdReusedAfterReload` | src/stores/accountStore.ts:107-109 | after that removal, a load and one more add, the new record gets id 2, the id that was removed |

## Left out

- Browser storage and JSON (`src/stores/accountStore.ts:80`, `92`, `94`, `123`) become the field `stored`. Every entry that `JSON.parse` or the `map` over it rejects is the single value `Malformed`. An empty-string entry is falsy, so it behaves like an absent one (`None`).
- `Store.AccountStore.SaveToStorage`: a failing write (a full quota, say) leaves the real entry as it was, and the code catches and logs the error. The model treats every write as successful.
- Logging to the console (`src/stores/accountStore.ts:81`, `83`, `114`) is left out. It is diagnostics only.
- The Pinia store and the Vue `ref`/`computed` wrappers are framework plumbing. `accountsCount` and `hasAccounts` are `|accounts|` and `|accounts| > 0`, so they are not modelled separately.
- Editing tags, login and password in the form writes the fields of a `UserAccount` directly. These are not store operations and are not modelled.
- Lengths count Unicode scalar values, not UTF-16 code units. A string with characters outside the Basic Multilingual Plane is shorter here than in JavaScript.
- Error messages are kinds (Required, MaxLength, NoTags), not the Russian texts.
- The optional `errors?` and `showPassword?` fields are always present in the model. `hasErrors` treats a missing error record like the empty one. Every record the store creates or loads has both fields set.
- Store.AccountStore.RemoveAccount: the index is an integer. A fractional JavaScript number also passes the range test at `src/stores/accountStore.ts:40`, and `splice` then truncates it; that case is not modelled.
- Ids are unbounded integers. JavaScript numbers lose precision beyond 2^53, and `Math.max` gives `NaN` for a non-numeric stored id. Neither is modelled.
- The spread in the load mapping also copies any extra or missing fields of a stored record. The model assumes every stored record has the persisted shape, except for `tags`, which may be a list, a plain string or missing.
