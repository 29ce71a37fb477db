/**
  The classification of an identity error code into one of four model-state
  keys, by ordinal, case-sensitive substring tests in a fixed order.
 */
module ErrorBuckets {

  const PasswordKey: string := "Password"
  const EmailKey: string := "Email"
  const UsernameKey: string := "Username"
  const GeneralKey: string := "General"

  predicate IsBucketKey(key: string)
  {
    key == PasswordKey || key == EmailKey || key == UsernameKey || key == GeneralKey
  }

  /** `sub` occurs in `s` starting at offset `i`, compared character by character. */
  predicate OccursAt(s: string, sub: string, i: nat)
  {
    i + |sub| <= |s| && s[i..i + |sub|] == sub
  }

  /** Ordinal `string.Contains`: some offset of `s` starts a copy of `sub`. */
  predicate Contains(s: string, sub: string)
  {
    exists i: nat :: i <= |s| && OccursAt(s, sub, i)
  }

  /** The bucket an error code is reported under. */
  function Classify(code: string): (key: string)
    ensures IsBucketKey(key)
  {
    if Contains(code, PasswordKey) then PasswordKey
    else if Contains(code, EmailKey) then EmailKey
    else if Contains(code, UsernameKey) then UsernameKey
    else GeneralKey
  }

  /**
    Each bucket, in both directions, and the priority Password > Email >
    Username > General; the four names differ, so each code lands in exactly
    one bucket.
   */
  lemma ClassifyCharacterization(code: string)
    ensures Classify(code) == PasswordKey <==> Contains(code, PasswordKey)
    ensures Classify(code) == EmailKey <==> !Contains(code, PasswordKey) && Contains(code, EmailKey)
    ensures Classify(code) == UsernameKey <==>
      !Contains(code, PasswordKey) && !Contains(code, EmailKey) && Contains(code, UsernameKey)
    ensures Classify(code) == GeneralKey <==>
      !Contains(code, PasswordKey) && !Contains(code, EmailKey) && !Contains(code, UsernameKey)
  {
  }

  /** A copy of `sub` anywhere in a string is found. */
  lemma ContainsInfix(prefix: string, sub: string, suffix: string)
    ensures Contains(prefix + sub + suffix, sub)
  {
    var s := prefix + sub + suffix;
    assert s[|prefix|..|prefix| + |sub|] == sub;
    assert OccursAt(s, sub, |prefix|);
  }

  /** Conversely, a string that contains `sub` splits around one copy of it. */
  lemma ContainsSplit(s: string, sub: string) returns (prefix: string, suffix: string)
    requires Contains(s, sub)
    ensures s == prefix + sub + suffix
  {
    var i: nat :| i <= |s| && OccursAt(s, sub, i);
    prefix, suffix := s[..i], s[i + |sub|..];
    assert s == s[..i] + s[i..i + |sub|] + s[i + |sub|..];
  }

  /** A code that mentions a password wins over any mention of an email or a user name. */
  lemma PasswordWins(prefix: string, suffix: string)
    ensures Classify(prefix + PasswordKey + suffix) == PasswordKey
  {
    ContainsInfix(prefix, PasswordKey, suffix);
  }

  /** Without "Password", a code that mentions "Email" is an email error. */
  lemma EmailWinsOverUsername(prefix: string, suffix: string)
    requires !Contains(prefix + EmailKey + suffix, PasswordKey)
    ensures Classify(prefix + EmailKey + suffix) == EmailKey
  {
    ContainsInfix(prefix, EmailKey, suffix);
  }

  /** Identity's code for a short password is a password error. */
  lemma PasswordTooShortIsPassword()
    ensures Classify("PasswordTooShort") == PasswordKey
  {
    assert "PasswordTooShort" == "" + PasswordKey + "TooShort";
    PasswordWins("", "TooShort");
  }

  /** Identity's code for a taken email address is an email error. */
  lemma DuplicateEmailIsEmail()
    ensures Classify("DuplicateEmail") == EmailKey
  {
    var code := "DuplicateEmail";
    assert code == "Duplicate" + EmailKey + "";
    forall i: nat | i <= |code| ensures !OccursAt(code, PasswordKey, i) {
      assert i + |PasswordKey| <= |code| ==> code[i..i + |PasswordKey|][0] == code[i];
    }
    EmailWinsOverUsername("Duplicate", "");
  }

  /**
    Matching is case-sensitive: Identity's code for a taken user name spells
    "UserName", which is not "Username", so it is reported under "General".
   */
  lemma DuplicateUserNameIsGeneral()
    ensures Classify("DuplicateUserName") == GeneralKey
  {
    var code := "DuplicateUserName";
    forall i: nat | i <= |code| ensures !OccursAt(code, PasswordKey, i) {
      assert i + |PasswordKey| <= |code| ==> code[i..i + |PasswordKey|][0] == code[i];
    }
    forall i: nat | i <= |code| ensures !OccursAt(code, EmailKey, i) {
      assert i + |EmailKey| <= |code| ==> code[i..i + |EmailKey|][0] == code[i];
    }
    forall i: nat | i <= |code| ensures !OccursAt(code, UsernameKey, i) {
      if i + |UsernameKey| <= |code| {
        assert code[i..i + |UsernameKey|][0] == code[i];
        assert code[i..i + |UsernameKey|][4] == code[i + 4];
      }
    }
  }
}
