/**
 * The in-memory record list of the account manager and its conversion to and
 * from the persisted shape (src/stores/accountStore.ts). The browser storage
 * entry is the field `stored`.
 */
module Store {
  import opened Wrappers
  import opened Types
  import opened Strings
  import opened Validation

  // ---------------------------------------------------------------- record mappings

  /** The record `addAccount` creates. */
  function BlankAccount(id: int): (v: AccountValue)
    ensures v.id == id && v.accountType == Local && !v.showPassword && v.errors == NoErrors
    ensures IsBlank(v.tags) && IsBlank(v.login) && IsBlank(v.password)
  {
    AccountValue(id, "", Local, "", "", false, NoErrors)
  }

  /** `handleTypeChange` on values: switching to LDAP discards the password and hides it. */
  function WithType(v: AccountValue, t: AccountType): (w: AccountValue)
    ensures w.accountType == t
    ensures w.id == v.id && w.tags == v.tags && w.login == v.login && w.errors == v.errors
    ensures t == Ldap ==> w.password == "" && !w.showPassword && PasswordError(t, w.password) == None
    ensures t == Local ==> w.password == v.password && w.showPassword == v.showPassword
  {
    if t == Ldap then v.(accountType := t, password := "", showPassword := false)
    else v.(accountType := t)
  }

  /** The per-record mapping of `saveToStorage`. */
  function ToSaved(v: AccountValue): (s: SavedAccount)
    ensures s.id == v.id && s.login == v.login && s.accountType == v.accountType
    ensures IsCurrentFormat(s)
    ensures s.password.Some? ==> s.password.value == v.password
  {
    SavedAccount(v.id, TagList(ParseTags(v.tags)), v.accountType, v.login,
                 if v.accountType == Ldap then None else Some(v.password))
  }

  /** The list `saveToStorage` writes. */
  function SavedForm(vs: seq<AccountValue>): seq<SavedAccount> {
    seq(|vs|, i requires 0 <= i < |vs| => ToSaved(vs[i]))
  }

  /** The `tags` of a restored record: a list is stringified, a string kept, anything falsy becomes `""`. */
  function RestoredTags(t: StoredTags): (r: string)
    ensures t.TagList? && (forall i :: 0 <= i < |t.items| ==> IsCanonicalTag(t.items[i])) ==>
              ParseTags(r) == t.items
    ensures t.RawString? ==> r == t.raw
    ensures t.Missing? ==> r == []
  {
    match t
    case TagList(items) =>
      if forall i :: 0 <= i < |items| ==> IsCanonicalTag(items[i]) then
        ParseStringifyRoundTrip(items);
        StringifyTags(items)
      else StringifyTags(items)
    case RawString(raw) => raw  // `account.tags || ''`: an empty string stays empty
    case Missing => ""
  }

  /** The per-record mapping of `loadFromStorage`. */
  function FromSaved(s: SavedAccount): (v: AccountValue)
    ensures v.id == s.id && v.login == s.login && v.accountType == s.accountType
    ensures !v.showPassword && v.errors == NoErrors
    ensures s.password.None? ==> v.password == []
    ensures s.password.Some? ==> v.password == s.password.value
  {
    AccountValue(s.id, RestoredTags(s.tags), s.accountType, s.login,
                 if s.password.Some? then s.password.value else "", false, NoErrors)
  }

  /** The records `loadFromStorage` builds. */
  function RestoreAll(data: seq<SavedAccount>): seq<AccountValue> {
    seq(|data|, i requires 0 <= i < |data| => FromSaved(data[i]))
  }

  /** The current value of each record, in order. */
  function ValuesOf(accs: seq<UserAccount>): seq<AccountValue>
    reads accs
  {
    seq(|accs|, i reads accs requires 0 <= i < |accs| => accs[i].Value())
  }

  /** `Math.max(...ids)`. */
  function MaxId(data: seq<SavedAccount>): (m: int)
    requires data != []
    ensures forall i :: 0 <= i < |data| ==> data[i].id <= m
    ensures exists i :: 0 <= i < |data| && data[i].id == m
  {
    if |data| == 1 then data[0].id
    else
      var m := MaxId(data[1..]);
      if data[0].id >= m then data[0].id else m
  }

  /** No id occurs twice. */
  predicate DistinctIds(ids: seq<int>) {
    forall i, j :: 0 <= i < j < |ids| ==> ids[i] != ids[j]
  }

  /** The ids of the live records, in order. */
  function IdsOf(accs: seq<UserAccount>): seq<int> {
    seq(|accs|, i requires 0 <= i < |accs| => accs[i].id)
  }

  lemma IdsOfAppend(accs: seq<UserAccount>, a: UserAccount)
    ensures IdsOf(accs + [a]) == IdsOf(accs) + [a.id]
  {
  }

  lemma IdsOfRemove(accs: seq<UserAccount>, index: nat)
    requires index < |accs|
    ensures IdsOf(accs[..index] + accs[index + 1..]) == IdsOf(accs)[..index] + IdsOf(accs)[index + 1..]
  {
  }

  /** Removing one entry keeps the rest distinct. */
  lemma DistinctIdsRemove(ids: seq<int>, index: nat)
    requires index < |ids| && DistinctIds(ids)
    ensures DistinctIds(ids[..index] + ids[index + 1..])
  {
    var r := ids[..index] + ids[index + 1..];
    forall i, j | 0 <= i < j < |r|
      ensures r[i] != r[j]
    {
      var i' := if i < index then i else i + 1;
      var j' := if j < index then j else j + 1;
      assert r[i] == ids[i'] && r[j] == ids[j'];
    }
  }

  /** The ids of the persisted records, in order. */
  function SavedIds(data: seq<SavedAccount>): seq<int> {
    seq(|data|, i requires 0 <= i < |data| => data[i].id)
  }

  /** `Array.prototype.find` by id: the first position holding `id`, if any. */
  function FirstIndexOf(accs: seq<UserAccount>, id: int): (r: Option<nat>)
    ensures r.Some? ==> r.value < |accs| && accs[r.value].id == id
    ensures r.Some? ==> forall j :: 0 <= j < r.value ==> accs[j].id != id
    ensures r.None? <==> forall j :: 0 <= j < |accs| ==> accs[j].id != id
  {
    if accs == [] then None
    else if accs[0].id == id then Some(0)
    else match FirstIndexOf(accs[1..], id)
      case Some(i) => Some(i + 1)
      case None => None
  }

  // ---------------------------------------------------------------- mapping lemmas

  /** Saving keeps length, order, ids, logins and types; tags are parsed; only local accounts keep a password. */
  lemma SavedFormFields(vs: seq<AccountValue>)
    ensures |SavedForm(vs)| == |vs|
    ensures forall i :: 0 <= i < |vs| ==>
      var s := SavedForm(vs)[i];
      && s.id == vs[i].id && s.login == vs[i].login && s.accountType == vs[i].accountType
      && s.tags == TagList(ParseTags(vs[i].tags))
      && (s.password.None? <==> vs[i].accountType == Ldap)
      && (s.password.Some? ==> s.password.value == vs[i].password)
  {
  }

  /** Reading back what was saved normalises the tags, drops an LDAP password and resets the UI state. */
  lemma LoadAfterSave(v: AccountValue)
    ensures FromSaved(ToSaved(v)) == v.(tags := StringifyTags(ParseTags(v.tags)),
                                        password := if v.accountType == Ldap then "" else v.password,
                                        showPassword := false,
                                        errors := NoErrors)
  {
  }

  /** Saving what was read back writes the same persisted record again. */
  lemma SaveLoadSave(v: AccountValue)
    ensures ToSaved(FromSaved(ToSaved(v))) == ToSaved(v)
  {
    ParseCanonicalForm(v.tags);
  }

  /** A persisted record in the current format, with its password present exactly for local accounts. */
  predicate IsCurrentFormat(s: SavedAccount) {
    && s.tags.TagList?
    && (forall i :: 0 <= i < |s.tags.items| ==> IsCanonicalTag(s.tags.items[i]))
    && (s.password.None? <==> s.accountType == Ldap)
  }

  /** A current-format record survives a load followed by a save unchanged. */
  lemma SaveAfterLoad(s: SavedAccount)
    requires IsCurrentFormat(s)
    ensures ToSaved(FromSaved(s)) == s
  {
    ParseStringifyRoundTrip(s.tags.items);
  }

  /** A legacy plain-string record is migrated to a tag list by the next save. */
  lemma LegacyTagsMigrated(s: SavedAccount, raw: string)
    requires s.tags == RawString(raw)
    ensures ToSaved(FromSaved(s)).tags == TagList(ParseTags(raw))
  {
  }

  /** After switching to LDAP the password is empty, exempt from validation and never persisted. */
  lemma LdapDropsPassword(v: AccountValue)
    ensures WithType(v, Ldap).password == ""
    ensures PasswordError(Ldap, WithType(v, Ldap).password) == None
    ensures ToSaved(WithType(v, Ldap)).password == None
    ensures WithType(WithType(v, Ldap), Local).password == ""
  {
  }

  /** A freshly added record fails all three required rules until it is filled in. */
  lemma BlankAccountIsInvalid(id: int)
    ensures var v := BlankAccount(id);
            ErrorsFor(v.tags, v.login, v.accountType, v.password) == AccountErrors(Some(Required), Some(Required), Some(Required))
  {
  }

  /** The sample entry `[{id: 5, tags: [{text: "x"}], type: "LDAP", login: "bob", password: null}]`. */
  lemma RestoreSample()
    ensures var data := [SavedAccount(5, TagList([TagItem("x")]), Ldap, "bob", None)];
            && RestoreAll(data) == [AccountValue(5, "x", Ldap, "bob", "", false, NoErrors)]
            && MaxId(data) + 1 == 6
  {
  }

  // ---------------------------------------------------------------- the store

  class AccountStore {
    var accounts: seq<UserAccount>
    var nextId: int
    /** The storage entry `userAccounts`; `None` when it is absent. */
    var stored: Option<StoredBlob>

    /** Every id is below the counter, so the next one handed out is new. */
    ghost predicate IdsBelowNext()
      reads this
    {
      forall i :: 0 <= i < |accounts| ==> accounts[i].id < nextId
    }

    ghost predicate IdsDistinct()
      reads this
    {
      DistinctIds(IdsOf(accounts))
    }

    /** The current value of every record, in order. */
    function Values(): seq<AccountValue>
      reads this`accounts, accounts
    {
      ValuesOf(accounts)
    }

    /** The records the storage entry deserialises to, if it is present and well formed. */
    function StoredRecords(): Option<seq<SavedAccount>>
      reads this
    {
      match stored
      case Some(Saved(data)) => Some(data)
      case _ => None
    }

    /** The store as it starts: empty list, counter at 1, storage as the browser holds it. */
    constructor (initial: Option<StoredBlob>)
      ensures accounts == [] && nextId == 1 && stored == initial
      ensures IdsBelowNext() && IdsDistinct()
    {
      accounts := [];
      nextId := 1;
      stored := initial;
    }

    /** `getAccountById`: the first record holding `id`, if any. */
    function GetAccountById(id: int): (r: Option<UserAccount>)
      reads this
      ensures r.None? <==> forall i :: 0 <= i < |accounts| ==> accounts[i].id != id
      ensures r.Some? ==> exists k :: 0 <= k < |accounts| && accounts[k] == r.value && r.value.id == id
                                       && forall j :: 0 <= j < k ==> accounts[j].id != id
    {
      match FirstIndexOf(accounts, id)
      case Some(k) => Some(accounts[k])
      case None => None
    }

    /** The record `togglePasswordVisibility(id)` touches, as a frame. */
    function Target(id: int): set<UserAccount>
      reads this
    {
      match GetAccountById(id)
      case Some(a) => {a}
      case None => {}
    }

    /** `saveToStorage`: writes the persisted form of the current list. */
    method SaveToStorage()
      modifies this
      ensures accounts == old(accounts) && nextId == old(nextId)
      ensures stored == Some(Saved(SavedForm(Values())))
    {
      stored := Some(Saved(SavedForm(Values())));
    }

    /** `addAccount`: appends a blank local record under the next id, then saves. */
    method AddAccount()
      modifies this
      ensures |accounts| == |old(accounts)| + 1 && accounts[..|old(accounts)|] == old(accounts)
      ensures fresh(accounts[|old(accounts)|])
      ensures Values() == old(Values()) + [BlankAccount(old(nextId))]
      ensures nextId == old(nextId) + 1
      ensures stored == Some(Saved(SavedForm(Values())))
      ensures old(IdsBelowNext()) ==> IdsBelowNext()
      ensures old(IdsBelowNext()) && old(IdsDistinct()) ==> IdsDistinct()
    {
      var acc := new UserAccount(BlankAccount(nextId));
      IdsOfAppend(accounts, acc);
      nextId := nextId + 1;
      accounts := accounts + [acc];
      SaveToStorage();
    }

    /** `removeAccount(index)`: drops the record at a valid position and saves; otherwise does nothing. */
    method RemoveAccount(index: int)
      modifies this
      ensures nextId == old(nextId)
      ensures 0 <= index < |old(accounts)| ==>
        && accounts == old(accounts)[..index] + old(accounts)[index + 1..]
        && stored == Some(Saved(SavedForm(Values())))
      ensures !(0 <= index < |old(accounts)|) ==> accounts == old(accounts) && stored == old(stored)
      ensures old(IdsBelowNext()) ==> IdsBelowNext()
      ensures old(IdsDistinct()) ==> IdsDistinct()
    {
      if 0 <= index < |accounts| {
        IdsOfRemove(accounts, index);
        if IdsDistinct() {
          DistinctIdsRemove(IdsOf(accounts), index);
        }
        accounts := accounts[..index] + accounts[index + 1..];
        SaveToStorage();
      }
    }

    /** `togglePasswordVisibility(id)`: flips the flag of the first record with that id, if any. */
    method TogglePasswordVisibility(id: int)
      modifies Target(id)
      ensures match GetAccountById(id)
        case Some(a) => a.Value() == old(a.Value()).(showPassword := !old(a.showPassword))
        case None => true
    {
      match GetAccountById(id)
      case Some(a) =>
        a.showPassword := !a.showPassword;
      case None =>
    }

    /** `handleTypeChange(account, newType)`. */
    static method HandleTypeChange(acc: UserAccount, t: AccountType)
      modifies acc
      ensures acc.Value() == WithType(old(acc.Value()), t)
    {
      acc.accountType := t;
      if t == Ldap {
        acc.password := "";
        acc.showPassword := false;
      }
    }

    /**
     * `loadFromStorage`: when the entry holds a list, replaces the records by
     * fresh ones built from it and moves the counter past the largest id; when
     * the entry is absent or does not deserialise, changes nothing.
     */
    method LoadFromStorage()
      modifies this
      ensures stored == old(stored)
      ensures StoredRecords().None? ==> accounts == old(accounts) && nextId == old(nextId)
      ensures StoredRecords().Some? ==>
        var data := StoredRecords().value;
        && Values() == RestoreAll(data)
        && (forall i :: 0 <= i < |accounts| ==> fresh(accounts[i]))
        && nextId == (if data == [] then old(nextId) else MaxId(data) + 1)
        && IdsBelowNext()
        && (IdsDistinct() <==> DistinctIds(SavedIds(data)))
      ensures old(IdsBelowNext()) ==> IdsBelowNext()
    {
      match stored
      case Some(Saved(data)) =>
        var loaded: seq<UserAccount> := [];
        while |loaded| < |data|
          invariant unchanged(this)
          invariant |loaded| <= |data|
          invariant forall j :: 0 <= j < |loaded| ==> fresh(loaded[j]) && loaded[j].Value() == FromSaved(data[j])
        {
          var acc := new UserAccount(FromSaved(data[|loaded|]));
          loaded := loaded + [acc];
        }
        assert IdsOf(loaded) == SavedIds(data) by {
          forall j | 0 <= j < |data|
            ensures loaded[j].id == data[j].id
          {
            assert loaded[j].Value().id == FromSaved(data[j]).id;
          }
        }
        accounts := loaded;
        if |loaded| > 0 {
          nextId := MaxId(data) + 1;
        }
      case _ =>
    }

    /** `clearAllAccounts`: empties the list and removes the storage entry; the counter stays. */
    method ClearAllAccounts()
      modifies this
      ensures accounts == [] && stored == None && nextId == old(nextId)
    {
      accounts := [];
      stored := None;
    }
  }

  // ---------------------------------------------------------------- an id handed out twice

  /** Two records are added (ids 1 and 2) and the second is removed; storage then holds record 1 alone. */
  method AddTwoRemoveSecond() returns (s: AccountStore, removed: int)
    ensures fresh(s) && s.nextId == 3 && removed == 2
    ensures s.StoredRecords() == Some([ToSaved(BlankAccount(1))])
  {
    s := new AccountStore(None);
    s.AddAccount();
    var a0 := s.accounts[0];
    assert s.Values()[0] == BlankAccount(1);
    s.AddAccount();
    assert s.accounts[0] == a0;
    assert s.Values()[1] == BlankAccount(2);
    removed := s.accounts[1].id;
    s.RemoveAccount(1);
    assert s.accounts == [a0];
    assert s.Values() == [BlankAccount(1)];
    assert SavedForm([BlankAccount(1)]) == [ToSaved(BlankAccount(1))];
  }

  /**
   * After `AddTwoRemoveSecond` the list is read back from storage: the counter
   * is recomputed from the surviving id 1, so the next record added is given
   * id 2, the id of the record that was removed.
   */
  method IdReusedAfterReload() returns (removed: int, reissued: int)
    ensures reissued == removed == 2
  {
    var s;
    s, removed := AddTwoRemoveSecond();
    var data := [ToSaved(BlankAccount(1))];
    assert MaxId(data) == 1;
    s.LoadFromStorage();
    assert s.nextId == 2;
    s.AddAccount();
    var last := |s.accounts| - 1;
    assert s.Values()[last] == BlankAccount(2);
    reissued := s.accounts[last].id;
  }
}
