/** The server's user schema: the e-mail is trimmed and lower-cased, then
    checked for length and shape and kept unique; the password has a minimum
    length; the name is required and trimmed; the reset fields start empty. */
module UserSchema {

  import opened Common

  const MaxEmailLength := 60
  const MinPasswordLength := 6

  /** The `trim` and `lowercase` setters of the e-mail. */
  function NormaliseEmail(s: string): (r: string)
    ensures |r| <= |s|
    ensures r == [] || (!IsSpace(r[0]) && !IsSpace(r[|r| - 1]))
  {
    var t := Trim(s);
    var r := Lower(t);
    assert r != [] ==> r[0] == LowerChar(t[0]) && r[|r| - 1] == LowerChar(t[|t| - 1]);
    r
  }

  /** Normalising a normalised e-mail changes nothing, and so the order in
      which the two setters run makes no difference. */
  lemma NormaliseIdempotent(s: string)
    ensures NormaliseEmail(NormaliseEmail(s)) == NormaliseEmail(s)
    ensures NormaliseEmail(s) == Trim(Lower(s))
  {
    LowerTrimCommute(s);
    LowerTrimCommute(Lower(Trim(s)));
    TrimIdempotent(Lower(s));
    LowerIdempotent(Trim(s));
    assert NormaliseEmail(NormaliseEmail(s)) == Lower(Trim(Trim(Lower(s))));
  }

  /** `/^\S+@\S+\.\S+$/`: no whitespace at all, an `@` that is not first, and
      a later `.` that neither follows the `@` directly nor is last. */
  predicate EmailShape(s: string)
  {
    NoSpace(s) &&
    exists i, j :: 0 < i && i + 1 < j < |s| - 1 && s[i] == '@' && s[j] == '.'
  }

  /** The same shape as the regular expression reads it: three non-empty runs
      of non-whitespace characters joined by `@` and `.`. */
  ghost predicate SplitsAsEmail(s: string, a: string, b: string, c: string)
  {
    a != [] && b != [] && c != [] && NoSpace(a) && NoSpace(b) && NoSpace(c) &&
    s == a + "@" + b + "." + c
  }

  /** Every such joining has the shape. */
  lemma SplitHasShape(a: string, b: string, c: string)
    requires a != [] && b != [] && c != [] && NoSpace(a) && NoSpace(b) && NoSpace(c)
    ensures EmailShape(a + "@" + b + "." + c)
  {
    var s := a + "@" + b + "." + c;
    assert SplitsAsEmail(s, a, b, c);
    var i := |a|;
    var j := |a| + 1 + |b|;
    assert s[i] == '@' && s[j] == '.';
    forall k | 0 <= k < |s| ensures !IsSpace(s[k]) {
      if k < i {
        assert s[k] == a[k];
      } else if i < k < j {
        assert s[k] == b[k - i - 1];
      } else if j < k {
        assert s[k] == c[k - j - 1];
      }
    }
  }

  /** Every string with the shape is such a joining. */
  lemma ShapeSplits(s: string)
    requires EmailShape(s)
    ensures exists a, b, c :: SplitsAsEmail(s, a, b, c)
  {
    var i, j :| 0 < i && i + 1 < j < |s| - 1 && s[i] == '@' && s[j] == '.';
    var a, b, c := s[..i], s[i + 1..j], s[j + 1..];
    assert s == a + "@" + b + "." + c;
    assert NoSpace(a) && NoSpace(b) && NoSpace(c) by {
      forall k | 0 <= k < |a| ensures !IsSpace(a[k]) { assert a[k] == s[k]; }
      forall k | 0 <= k < |b| ensures !IsSpace(b[k]) { assert b[k] == s[i + 1 + k]; }
      forall k | 0 <= k < |c| ensures !IsSpace(c[k]) { assert c[k] == s[j + 1 + k]; }
    }
    assert SplitsAsEmail(s, a, b, c);
  }

  /** The e-mail field accepts a value when, after its setters, it is
      present, at most sixty characters long, and of the right shape. */
  predicate EmailValid(raw: string)
  {
    var e := NormaliseEmail(raw);
    e != [] && |e| <= MaxEmailLength && EmailShape(e)
  }

  /** A user as it is stored. */
  datatype StoredUser = StoredUser(
    name: string,
    email: string,
    password: string,
    resetCode: Option<string>,
    resetCodeExpiry: Option<int>)

  /** The user schema on a new user. The reset fields default to `null`. */
  function SaveUser(name: string, email: string, password: string): (r: Option<StoredUser>)
    ensures r.Some? <==> Trim(name) != [] && EmailValid(email) && |password| >= MinPasswordLength
    ensures r.Some? ==> (r.value.name == Trim(name) && r.value.email == NormaliseEmail(email) &&
                         r.value.password == password)
    ensures r.Some? ==> r.value.resetCode.None? && r.value.resetCodeExpiry.None?
  {
    if Trim(name) != [] && EmailValid(email) && |password| >= MinPasswordLength then
      Some(StoredUser(Trim(name), NormaliseEmail(email), password, None, None))
    else None
  }

  /** A saved user's strings are already what the setters make of them, and
      the e-mail meets every rule of the schema. */
  lemma SavedUserNormalised(name: string, email: string, password: string)
    requires SaveUser(name, email, password).Some?
    ensures var u := SaveUser(name, email, password).value;
      Trim(u.name) == u.name && NormaliseEmail(u.email) == u.email &&
      1 <= |u.email| <= MaxEmailLength && EmailShape(u.email) && |u.password| >= MinPasswordLength
  {
    TrimIdempotent(name);
    NormaliseIdempotent(email);
  }

  /** `unique: true` on the e-mail, as an invariant of the stored users. */
  predicate UniqueEmails(users: seq<StoredUser>)
  {
    forall i, j :: 0 <= i < j < |users| ==> users[i].email != users[j].email
  }

  /** Inserting a user: the unique index rejects an e-mail that is taken. */
  function InsertUser(users: seq<StoredUser>, u: StoredUser): (r: Option<seq<StoredUser>>)
    ensures r.None? <==> exists i :: 0 <= i < |users| && users[i].email == u.email
    ensures r.Some? ==> r.value == users + [u]
    ensures r.Some? && UniqueEmails(users) ==> UniqueEmails(r.value)
  {
    if exists i :: 0 <= i < |users| && users[i].email == u.email then None
    else Some(users + [u])
  }

  /** Two e-mails that differ only in surrounding spaces or in ASCII case are
      the same address to the index. */
  lemma CaseAndSpacesCollide(users: seq<StoredUser>, u: StoredUser, raw: string)
    requires exists i :: 0 <= i < |users| && users[i].email == NormaliseEmail(raw)
    ensures InsertUser(users, u.(email := NormaliseEmail(raw))).None?
  {
  }
}
