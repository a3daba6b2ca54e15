/** The password transform and the storage keys of App.tsx. Both are a fixed prefix glued
    to a string, so both are injective. */
module Credentials {

  const HashPrefix: string := "hashed_"
  const ProgressPrefix: string := "progress_"
  const UsersKey: string := "users"

  /** Gluing the same prefix in front of two strings keeps them apart exactly when they differ. */
  lemma {:induction false} PrefixCancels(p: string, a: string, b: string)
    ensures p + a == p + b <==> a == b
  {
    if p + a == p + b {
      assert a == (p + a)[|p|..];
      assert b == (p + b)[|p|..];
    }
  }

  /** The mock password "hash": the plaintext behind a fixed prefix. The stored value is never
      the plaintext itself. */
  function SimpleHash(password: string): (r: string)
    ensures r != password
    ensures |r| > |password|
  {
    HashPrefix + password
  }

  /** Two passwords have the same stored value exactly when they are the same password, so
      comparing stored values is comparing plaintexts. */
  lemma HashInjective(a: string, b: string)
    ensures SimpleHash(a) == SimpleHash(b) <==> a == b
  {
    PrefixCancels(HashPrefix, a, b);
  }

  /** The durable key under which one account's completed weeks are kept. */
  function ProgressKey(email: string): (k: string)
    ensures k != UsersKey
    ensures |k| > |email|
  {
    ProgressPrefix + email
  }

  /** Distinct accounts never share a progress record. */
  lemma ProgressKeyInjective(a: string, b: string)
    ensures ProgressKey(a) == ProgressKey(b) <==> a == b
  {
    PrefixCancels(ProgressPrefix, a, b);
  }
}
