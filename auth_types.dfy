/**
  The shared authentication types of `src/types/auth.ts` and the admin check:
  an email is an administrator's when, lower-cased, it is exactly one of the
  listed addresses.
 */
module AuthTypes {
  import opened Wrappers
  import opened Text

  datatype AuthRole = UserRole | AdminRole

  datatype User = User(id: string, name: Option<string>, email: Option<string>, image: Option<string>, role: AuthRole)

  /** A session and its expiry, in milliseconds since the epoch. */
  datatype Session = Session(user: User, expires: int)

  const AdminEmails: seq<string> := ["admin@haramainvolunteers.org", "director@haramainvolunteers.org"]

  /** `isAdmin(email)`: false for a missing or empty email, else membership of the lower-cased email. */
  function IsAdmin(email: Option<string>): (r: bool)
    ensures r <==> email.Some? && email.value != "" && LowerStr(email.value) in AdminEmails
  {
    if email.None? || email.value == "" then false
    else LowerStr(email.value) in AdminEmails
  }

  /** Only the two listed addresses, in any letter case, pass: no substring or domain match. */
  lemma IsAdminExact(email: string)
    ensures IsAdmin(Some(email)) <==>
      LowerStr(email) == "admin@haramainvolunteers.org" || LowerStr(email) == "director@haramainvolunteers.org"
  {
    if LowerStr(email) in AdminEmails {
      assert |email| > 0;
    }
  }

  /** The check ignores letter case: an email and its lower-cased form are judged alike. */
  lemma IsAdminIgnoresCase(email: string)
    ensures IsAdmin(Some(email)) == IsAdmin(Some(LowerStr(email)))
  {
    LowerStrIdempotent(email);
  }

  /** An address of the right domain but not listed is refused. */
  lemma UnlistedSameDomainRefused()
    ensures !IsAdmin(Some("volunteer@haramainvolunteers.org"))
    ensures !IsAdmin(Some("superadmin@haramainvolunteers.org"))
  {
    assert |LowerStr("volunteer@haramainvolunteers.org")| == 32;
    assert |LowerStr("superadmin@haramainvolunteers.org")| == 33;
  }
}
