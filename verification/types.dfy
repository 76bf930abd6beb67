/** The record shapes of the account manager (src/types/index.ts). */
module Types {
  import opened Wrappers

  /** `'Локальная' | 'LDAP'`: a locally stored credential or a directory-backed one. */
  datatype AccountType = Local | Ldap

  /** Which rule a field broke; the user-facing message texts are not modelled. */
  datatype ErrorKind =
    | Required   // blank after trimming
    | MaxLength  // longer than the field's limit
    | NoTags     // no tag survives splitting, trimming and dropping empty pieces

  /** `AccountErrors`: an absent field is a valid field. */
  datatype AccountErrors = AccountErrors(tags: Option<ErrorKind>, login: Option<ErrorKind>, password: Option<ErrorKind>)
  {
    /** `Object.keys(errors).length`: how many fields carry an error. */
    function KeyCount(): (n: nat)
      ensures n <= 3
      ensures n == 0 <==> this == NoErrors
    {
      (if tags.Some? then 1 else 0) + (if login.Some? then 1 else 0) + (if password.Some? then 1 else 0)
    }
  }

  /** The empty error record `{}`. */
  const NoErrors := AccountErrors(None, None, None)

  /** `TagItem`. */
  datatype TagItem = TagItem(text: string)

  /**
   * The `tags` field of a persisted record as it may be read back: the current
   * structured list, a legacy plain string, or nothing at all.
   */
  datatype StoredTags = TagList(items: seq<TagItem>) | RawString(raw: string) | Missing

  /** `SavedAccount`: the persisted shape; `password` is `null` for directory accounts. */
  datatype SavedAccount = SavedAccount(id: int, tags: StoredTags, accountType: AccountType, login: string, password: Option<string>)

  /**
   * The content of the storage entry: either it deserialises to a list of
   * records, or reading it fails.
   */
  datatype StoredBlob = Malformed | Saved(records: seq<SavedAccount>)

  /** The value of every field of a `UserAccount` at one moment. */
  datatype AccountValue = AccountValue(
    id: int,
    tags: string,
    accountType: AccountType,
    login: string,
    password: string,
    showPassword: bool,
    errors: AccountErrors)

  /** `UserAccount`: one live record, edited in place by the form and the store. */
  class UserAccount {
    const id: int
    var tags: string
    var accountType: AccountType
    var login: string
    var password: string
    var showPassword: bool
    var errors: AccountErrors

    constructor (v: AccountValue)
      ensures Value() == v
    {
      id := v.id;
      tags := v.tags;
      accountType := v.accountType;
      login := v.login;
      password := v.password;
      showPassword := v.showPassword;
      errors := v.errors;
    }

    function Value(): AccountValue
      reads this
    {
      AccountValue(id, tags, accountType, login, password, showPassword, errors)
    }
  }
}
