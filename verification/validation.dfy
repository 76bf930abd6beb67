/**
 * Field validation and the tag transformer of the account form
 * (src/composables/useValidation.ts).
 */
module Validation {
  import opened Wrappers
  import opened Strings
  import opened Types

  const TagSeparator: char := ';'
  const TagJoiner: string := "; "
  const MaxTagsLength: nat := 50
  const MaxLoginLength: nat := 100
  const MaxPasswordLength: nat := 100

  /** What every stored tag text looks like: non-empty, trimmed, separator-free. */
  predicate IsCanonicalText(t: string) {
    t != [] && IsTrimmed(t) && TagSeparator !in t
  }

  predicate IsCanonicalTag(tag: TagItem) {
    IsCanonicalText(tag.text)
  }

  /** Only whitespace and separators: no character that could start a tag. */
  predicate OnlySeparators(s: string) {
    forall i :: 0 <= i < |s| ==> IsWhitespace(s[i]) || s[i] == TagSeparator
  }

  // ---------------------------------------------------------------- tags

  /** `.map(tag => tag.trim())` */
  function TrimAll(pieces: seq<string>): (r: seq<string>)
    ensures |r| == |pieces|
    ensures forall i :: 0 <= i < |r| ==> IsTrimmed(r[i])
  {
    seq(|pieces|, i requires 0 <= i < |pieces| => Trim(pieces[i]))
  }

  /** `.filter(tag => tag)`: keeps the non-empty strings, in order. */
  function KeepNonEmpty(ps: seq<string>): (r: seq<string>)
    ensures |r| <= |ps|
    ensures forall i :: 0 <= i < |r| ==> r[i] != [] && r[i] in ps
    ensures forall i :: 0 <= i < |ps| && ps[i] != [] ==> ps[i] in r
  {
    if ps == [] then []
    else
      var rest := KeepNonEmpty(ps[1..]);
      assert forall i :: 1 <= i < |ps| ==> ps[i] == ps[1..][i - 1];
      (if ps[0] == [] then [] else [ps[0]]) + rest
  }

  /** The tag texts of a raw tags string: split on `;`, trimmed, empty pieces dropped. */
  function TagTexts(raw: string): (r: seq<string>)
    ensures |r| <= CountChar(raw, TagSeparator) + 1
    ensures forall i :: 0 <= i < |r| ==> IsCanonicalText(r[i])
  {
    TagTextsCanonical(raw);
    KeepNonEmpty(TrimAll(Split(raw, TagSeparator)))
  }

  /** Every tag text is non-empty, trimmed and free of separators. */
  lemma TagTextsCanonical(raw: string)
    ensures forall i :: 0 <= i < |KeepNonEmpty(TrimAll(Split(raw, TagSeparator)))| ==>
              IsCanonicalText(KeepNonEmpty(TrimAll(Split(raw, TagSeparator)))[i])
  {
    var pieces := Split(raw, TagSeparator);
    var texts := KeepNonEmpty(TrimAll(pieces));
    SplitPiecesLackSeparator(raw, TagSeparator);
    forall i | 0 <= i < |texts|
      ensures IsCanonicalText(texts[i])
    {
      var j :| 0 <= j < |pieces| && texts[i] == TrimAll(pieces)[j];
      assert texts[i] == Trim(pieces[j]);
      TrimKeepsAbsent(pieces[j], TagSeparator);
    }
  }

  /** `.map(tag => ({ text: tag }))` */
  function Wrap(texts: seq<string>): (r: seq<TagItem>)
    ensures Texts(r) == texts
  {
    seq(|texts|, i requires 0 <= i < |texts| => TagItem(texts[i]))
  }

  lemma WrapAppend(a: seq<string>, b: seq<string>)
    ensures Wrap(a + b) == Wrap(a) + Wrap(b)
  {
  }

  /** `parseTags`. */
  function ParseTags(raw: string): (r: seq<TagItem>)
    ensures |r| <= CountChar(raw, TagSeparator) + 1
    ensures forall i :: 0 <= i < |r| ==> IsCanonicalTag(r[i])
  {
    Wrap(TagTexts(raw))
  }

  /** The texts of a tag list, in order. */
  function Texts(tags: seq<TagItem>): (r: seq<string>)
    ensures |r| == |tags|
    ensures forall i :: 0 <= i < |tags| ==> TagItem(r[i]) == tags[i]
  {
    seq(|tags|, i requires 0 <= i < |tags| => tags[i].text)
  }

  /** `stringifyTags`: the texts joined by `"; "`. */
  function StringifyTags(tags: seq<TagItem>): (r: string)
    ensures tags == [] ==> r == []
    ensures |r| == TotalLength(Texts(tags)) + (if tags == [] then 0 else 2 * (|tags| - 1))
  {
    Join(Texts(tags), TagJoiner)
  }

  lemma {:induction false} KeepNonEmptyAppend(a: seq<string>, b: seq<string>)
    ensures KeepNonEmpty(a + b) == KeepNonEmpty(a) + KeepNonEmpty(b)
  {
    if a != [] {
      assert (a + b)[0] == a[0];
      assert (a + b)[1..] == a[1..] + b;
      KeepNonEmptyAppend(a[1..], b);
    } else {
      assert a + b == b;
    }
  }

  /** The empty string holds no tag. */
  lemma ParseTagsEmptyString()
    ensures ParseTags("") == []
  {
    assert TrimAll([""]) == [""];
  }

  /**
   * Parsing keeps the left-to-right order and does not deduplicate: the tags
   * on either side of a separator are parsed independently and concatenated.
   */
  lemma ParseTagsAtSeparator(a: string, b: string)
    ensures ParseTags(a + [TagSeparator] + b) == ParseTags(a) + ParseTags(b)
  {
    var pa, pb := Split(a, TagSeparator), Split(b, TagSeparator);
    SplitAtSeparator(a, b, TagSeparator);
    assert TrimAll(pa + pb) == TrimAll(pa) + TrimAll(pb);
    KeepNonEmptyAppend(TrimAll(pa), TrimAll(pb));
    var ta, tb := TagTexts(a), TagTexts(b);
    assert TagTexts(a + [TagSeparator] + b) == ta + tb;
    WrapAppend(ta, tb);
  }

  lemma TrimAllHead(p: string, ps: seq<string>)
    requires ps != [] && Trim(p) == Trim(ps[0])
    ensures TrimAll([p] + ps[1..]) == TrimAll(ps)
  {
    var l, r := TrimAll([p] + ps[1..]), TrimAll(ps);
    assert |l| == |r|;
    forall i | 0 <= i < |l| ensures l[i] == r[i] {
      if i > 0 {
        assert ([p] + ps[1..])[i] == ps[i];
      }
    }
  }

  /** Whitespace in front of the string never reaches a tag. */
  lemma ParseTagsLeadingWhitespace(c: char, s: string)
    requires IsWhitespace(c)
    ensures ParseTags([c] + s) == ParseTags(s)
  {
    var ps := Split(s, TagSeparator);
    assert ([c] + s)[1..] == s;
    assert Split([c] + s, TagSeparator) == [[c] + ps[0]] + ps[1..];
    TrimLeadingWhitespace(c, ps[0]);
    TrimAllHead([c] + ps[0], ps);
  }

  /** A canonical text parses to exactly one tag holding it. */
  lemma ParseCanonicalText(t: string)
    requires IsCanonicalText(t)
    ensures ParseTags(t) == [TagItem(t)]
  {
    SplitWithoutSeparator(t, TagSeparator);
    TrimOfTrimmed(t);
    assert TrimAll([t]) == [t];
  }

  /** A tag character followed by anything yields at least one tag. */
  lemma ParseTagsStartingWithTagChar(c: char, s: string)
    requires !IsWhitespace(c) && c != TagSeparator
    ensures ParseTags([c] + s) != []
  {
    var ps := Split(s, TagSeparator);
    assert ([c] + s)[1..] == s;
    var pieces := Split([c] + s, TagSeparator);
    assert pieces == [[c] + ps[0]] + ps[1..];
    assert !IsBlank(pieces[0]) by { assert pieces[0][0] == c; }
    assert TrimAll(pieces)[0] != [];
  }

  /** `parseTags` finds no tag exactly when the string holds only whitespace and separators. */
  lemma {:induction false} ParseTagsEmptyIff(s: string)
    ensures ParseTags(s) == [] <==> OnlySeparators(s)
  {
    if s == [] {
      ParseTagsEmptyString();
    } else {
      var c, t := s[0], s[1..];
      assert s == [c] + t;
      ParseTagsEmptyIff(t);
      assert OnlySeparators(s) <==> (IsWhitespace(c) || c == TagSeparator) && OnlySeparators(t);
      if c == TagSeparator {
        ParseTagsAtSeparator([], t);
        ParseTagsEmptyString();
        assert [] + [TagSeparator] + t == s;
      } else if IsWhitespace(c) {
        ParseTagsLeadingWhitespace(c, t);
      } else {
        ParseTagsStartingWithTagChar(c, t);
      }
    }
  }

  /** Round trip: a list of canonical tags survives stringify-then-parse unchanged. */
  lemma {:induction false} ParseStringifyRoundTrip(tags: seq<TagItem>)
    requires forall i :: 0 <= i < |tags| ==> IsCanonicalTag(tags[i])
    ensures ParseTags(StringifyTags(tags)) == tags
  {
    if tags == [] {
      ParseTagsEmptyString();
    } else if |tags| == 1 {
      ParseCanonicalText(tags[0].text);
    } else {
      var head, tail := tags[0].text, StringifyTags(tags[1..]);
      ParseStringifyRoundTrip(tags[1..]);
      assert Texts(tags)[1..] == Texts(tags[1..]);
      assert StringifyTags(tags) == head + [TagSeparator] + ([' '] + tail);
      ParseTagsAtSeparator(head, [' '] + tail);
      ParseTagsLeadingWhitespace(' ', tail);
      ParseCanonicalText(head);
      assert tags == [tags[0]] + tags[1..];
    }
  }

  /** Parsing the canonical form gives back the same tags. */
  lemma ParseCanonicalForm(raw: string)
    ensures ParseTags(StringifyTags(ParseTags(raw))) == ParseTags(raw)
  {
    ParseStringifyRoundTrip(ParseTags(raw));
  }

  /** The canonical form `stringifyTags(parseTags(raw))` is a fixed point of normalisation. */
  lemma CanonicalFormIdempotent(raw: string)
    ensures var canon := StringifyTags(ParseTags(raw));
            StringifyTags(ParseTags(canon)) == canon
  {
    ParseCanonicalForm(raw);
  }

  // ---------------------------------------------------------------- fields

  /** The `tags` rule: blank, then too long, then no tag at all; the first that holds wins. */
  function TagsError(tags: string): (e: Option<ErrorKind>)
    ensures e == Some(Required) <==> IsBlank(tags)
    ensures e == Some(MaxLength) <==> !IsBlank(tags) && |tags| > MaxTagsLength
    ensures e == Some(NoTags) <==> !IsBlank(tags) && |tags| <= MaxTagsLength && OnlySeparators(tags)
    ensures e == None <==> |tags| <= MaxTagsLength && ParseTags(tags) != []
  {
    ParseTagsEmptyIff(tags);
    if Trim(tags) == [] then Some(Required)
    else if |tags| > MaxTagsLength then Some(MaxLength)
    else if |TagTexts(tags)| == 0 then Some(NoTags)
    else None
  }

  /** The `login` rule: blank, then longer than 100. */
  function LoginError(login: string): (e: Option<ErrorKind>)
    ensures e == Some(Required) <==> IsBlank(login)
    ensures e == Some(MaxLength) <==> !IsBlank(login) && |login| > MaxLoginLength
    ensures e != Some(NoTags)
  {
    if Trim(login) == [] then Some(Required)
    else if |login| > MaxLoginLength then Some(MaxLength)
    else None
  }

  /** The `password` rule, applied to local accounts only. */
  function PasswordError(accountType: AccountType, password: string): (e: Option<ErrorKind>)
    ensures accountType == Ldap ==> e == None
    ensures accountType == Local ==>
      && (e == Some(Required) <==> IsBlank(password))
      && (e == Some(MaxLength) <==> !IsBlank(password) && |password| > MaxPasswordLength)
      && e != Some(NoTags)
  {
    if accountType == Local then
      if Trim(password) == [] then Some(Required)
      else if |password| > MaxPasswordLength then Some(MaxLength)
      else None
    else None
  }

  /** The record invariant the form enforces, stated field by field. */
  predicate IsWellFormed(tags: string, login: string, accountType: AccountType, password: string) {
    && |tags| <= MaxTagsLength && ParseTags(tags) != []
    && !IsBlank(login) && |login| <= MaxLoginLength
    && (accountType == Local ==> !IsBlank(password) && |password| <= MaxPasswordLength)
  }

  /** The error record `validateAccount` builds: each field judged on its own. */
  function ErrorsFor(tags: string, login: string, accountType: AccountType, password: string): (e: AccountErrors)
    ensures e == NoErrors <==> IsWellFormed(tags, login, accountType, password)
  {
    AccountErrors(TagsError(tags), LoginError(login), PasswordError(accountType, password))
  }

  /** `hasErrors`: reads the stored error record, does not recompute it. */
  function HasErrors(acc: UserAccount): (r: bool)
    reads acc
    ensures r <==> acc.errors.tags.Some? || acc.errors.login.Some? || acc.errors.password.Some?
  {
    acc.errors.KeyCount() > 0
  }

  /** `validateAccount`: replaces the record's errors with freshly computed ones. */
  method ValidateAccount(acc: UserAccount) returns (ok: bool)
    modifies acc
    ensures acc.errors == ErrorsFor(old(acc.tags), old(acc.login), old(acc.accountType), old(acc.password))
    ensures acc.Value() == old(acc.Value()).(errors := acc.errors)
    ensures ok <==> IsWellFormed(acc.tags, acc.login, acc.accountType, acc.password)
    ensures ok == !HasErrors(acc)
  {
    var errors := ErrorsFor(acc.tags, acc.login, acc.accountType, acc.password);
    acc.errors := errors;
    ok := errors.KeyCount() == 0;
  }

  // ---------------------------------------------------------------- examples

  /** A blank local record breaks all three required rules. */
  lemma BlankLocalRecordErrors()
    ensures ErrorsFor("", "", Local, "") == AccountErrors(Some(Required), Some(Required), Some(Required))
  {
  }

  /** Well-formed input yields no error. */
  lemma WellFormedExample()
    ensures ErrorsFor("a;b;c", "user", Local, "pw") == NoErrors
  {
    assert !OnlySeparators("a;b;c") by { assert "a;b;c"[0] == 'a'; }
    assert !IsBlank("user") by { assert "user"[0] == 'u'; }
    assert !IsBlank("pw") by { assert "pw"[0] == 'p'; }
  }

  /** A string of separators only is not blank, yet holds no tag. */
  lemma SeparatorsOnlyExample()
    ensures TagsError(";;;") == Some(NoTags)
  {
    assert !IsBlank(";;;") by { assert ";;;"[0] == ';'; }
  }

  /** Duplicates are kept. */
  lemma DuplicateTagsKept()
    ensures ParseTags("x;x") == [TagItem("x"), TagItem("x")]
  {
    assert "x;x" == "x" + [TagSeparator] + "x";
    ParseTagsAtSeparator("x", "x");
    ParseCanonicalText("x");
  }

  /**
   * Normalisation adds a space after every separator, so a tags string that
   * passes the 50-character rule can fail it once stored and read back.
   */
  lemma CanonicalFormCanExceedLimit()
    ensures var raw := seq(25, _ => 'x') + [TagSeparator] + seq(24, _ => 'y');
            && TagsError(raw) == None
            && TagsError(StringifyTags(ParseTags(raw))) == Some(MaxLength)
  {
    var a, b := seq(25, _ => 'x'), seq(24, _ => 'y');
    var raw := a + [TagSeparator] + b;
    ParseTagsAtSeparator(a, b);
    ParseCanonicalText(a);
    ParseCanonicalText(b);
    var tags := [TagItem(a), TagItem(b)];
    assert ParseTags(raw) == tags;
    assert Texts(tags) == [a, b];
    assert TotalLength([b]) == 24 by { assert [b][1..] == []; }
    assert TotalLength([a, b]) == 49 by { assert [a, b][1..] == [b]; }
    var canon := StringifyTags(ParseTags(raw));
    assert |canon| == 51;
    assert !IsBlank(canon) by { assert canon[0] == 'x'; }
  }
}
