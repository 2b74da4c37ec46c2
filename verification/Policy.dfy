/** Redaction policies and the key names they mask. */
module Policy {
  import opened Json

  const PLACEHOLDER := "***REDACTED***"

  /** Masked wherever they occur in a normalized key. */
  const CONTAINS_TOKENS: seq<string> := [
    "password", "passwd", "passphrase", "secret", "apikey", "accesstoken", "refreshtoken", "authorization",
    "credential", "privatekey", "clientsecret", "sessiontoken", "mnemonic", "seedphrase"
  ]

  /** Masked only at the end of a normalized key. */
  const SUFFIX_TOKENS: seq<string> := ["token", "cookie", "bearer"]

  datatype Policy = NoRedaction | Default | Custom(extraKeys: seq<string>) {
    function Name(): string {
      match this case NoRedaction => "none" case Default => "default" case Custom(_) => "custom"
    }

    /** The key list the checker matches against. */
    function CustomKeys(): seq<string> {
      if Custom? then extraKeys else []
    }

    /** The key list `Redactor::new` matches against: normalized once more, empty names dropped. */
    function RedactorKeys(): seq<string> {
      if Custom? then Normalized(extraKeys) else []
    }

    predicate Active() { !NoRedaction? }
  }

  datatype PolicyError = UnknownPolicy | KeysNeedDefault | NoUsableKey | KeysNotAllowed | KeysRequired

  function NormalizeChar(c: char): (s: string) {
    if 'a' <= c <= 'z' || IsDigit(c) then [c]
    else if 'A' <= c <= 'Z' then [(c as int + 32) as char]
    else []
  }

  /** Lower-case, separators stripped: `api_key`, `apiKey` and `API-KEY` are one key. */
  function NormalizeKey(key: string): string {
    if key == [] then [] else NormalizeChar(key[0]) + NormalizeKey(key[1..])
  }

  function Normalized(keys: seq<string>): (r: seq<string>)
    ensures forall k :: k in r <==> k != [] && exists i :: 0 <= i < |keys| && NormalizeKey(keys[i]) == k
  {
    if keys == [] then [] else
    var rest := Normalized(keys[1..]);
    assert forall i :: 0 <= i < |keys| - 1 ==> keys[1..][i] == keys[i + 1];
    var n := NormalizeKey(keys[0]);
    if n == [] then rest else [n] + rest
  }

  predicate TokenAt(s: string, token: string, i: nat) {
    i + |token| <= |s| && s[i..i + |token|] == token
  }

  predicate ContainsToken(s: string, token: string) {
    exists i :: 0 <= i <= |s| && TokenAt(s, token, i)
  }

  predicate EndsWithToken(s: string, token: string) {
    |token| <= |s| && s[|s| - |token|..] == token
  }

  predicate IsSensitiveKey(key: string) {
    var n := NormalizeKey(key);
    n != [] && (
      || (exists i :: 0 <= i < |CONTAINS_TOKENS| && ContainsToken(n, CONTAINS_TOKENS[i]))
      || (exists i :: 0 <= i < |SUFFIX_TOKENS| && EndsWithToken(n, SUFFIX_TOKENS[i])))
  }

  predicate Sensitive(custom: seq<string>, key: string) {
    IsSensitiveKey(key) || (NormalizeKey(key) != [] && NormalizeKey(key) in custom)
  }

  /** The key test a redactor or a checker with these extra keys applies. */
  function Masks(custom: seq<string>): string -> bool {
    key => Sensitive(custom, key)
  }

  function FromCli(name: string, extraKeys: seq<string>): Result<Policy, PolicyError> {
    if name != "none" && name != "default" then Err(UnknownPolicy)
    else if extraKeys == [] then Ok(if name == "none" then NoRedaction else Default)
    else if name != "default" then Err(KeysNeedDefault)
    else
      var keys := SortedKeys(set k | k in Normalized(extraKeys));
      if keys == [] then Err(NoUsableKey) else Ok(Custom(keys))
  }

  function FromStorage(name: string, extraKeys: seq<string>): Result<Policy, PolicyError> {
    if name == "none" then if extraKeys == [] then Ok(NoRedaction) else Err(KeysNotAllowed)
    else if name == "default" then if extraKeys == [] then Ok(Default) else Err(KeysNotAllowed)
    else if name == "custom" then if extraKeys == [] then Err(KeysRequired) else FromCli("default", extraKeys)
    else Err(UnknownPolicy)
  }

  // ---------------------------------------------------------------- normal forms

  lemma {:induction false} NormalizeAppend(a: string, b: string)
    ensures NormalizeKey(a + b) == NormalizeKey(a) + NormalizeKey(b)
  {
    if a == [] {
      assert a + b == b;
    } else {
      assert (a + b)[1..] == a[1..] + b;
      NormalizeAppend(a[1..], b);
    }
  }

  lemma {:induction false} NormalizeIdempotent(key: string)
    ensures NormalizeKey(NormalizeKey(key)) == NormalizeKey(key)
  {
    if key != [] {
      NormalizeIdempotent(key[1..]);
      var head := NormalizeChar(key[0]);
      NormalizeAppend(head, NormalizeKey(key[1..]));
      assert head != [] ==> head[1..] == [] && NormalizeKey(head) == NormalizeChar(head[0]) + [];
    }
  }

  lemma {:induction false} SensitiveByNormalForm(custom: seq<string>, key: string)
    ensures Sensitive(custom, key) == Sensitive(custom, NormalizeKey(key))
  {
    NormalizeIdempotent(key);
  }

  /** What `from_cli` and `from_storage` build: the key list in its one normal form. */
  predicate InNormalForm(policy: Policy) {
    policy.Custom? ==>
      policy.extraKeys != [] && Ascending(policy.extraKeys) &&
      forall k :: k in policy.extraKeys ==> k != [] && NormalizeKey(k) == k
  }

  lemma {:induction false} FromCliNormal(name: string, extraKeys: seq<string>)
    ensures FromCli(name, extraKeys).Ok? ==> InNormalForm(FromCli(name, extraKeys).value)
  {
    forall i | 0 <= i < |extraKeys|
      ensures NormalizeKey(NormalizeKey(extraKeys[i])) == NormalizeKey(extraKeys[i])
    {
      NormalizeIdempotent(extraKeys[i]);
    }
  }

  /** A normal key list is what normalizing, sorting and removing repetitions makes of it. */
  lemma {:induction false} NormalKeysFixpoint(keys: seq<string>)
    requires InNormalForm(Custom(keys))
    ensures SortedKeys(set k | k in Normalized(keys)) == keys
  {
    assert (set k | k in Normalized(keys)) == set k | k in keys by {
      forall k ensures k in Normalized(keys) <==> k in keys {
        if k in keys { var i :| 0 <= i < |keys| && keys[i] == k; assert NormalizeKey(keys[i]) == k; }
        if k in Normalized(keys) { var i :| 0 <= i < |keys| && NormalizeKey(keys[i]) == k; assert keys[i] in keys; }
      }
    }
    SortedKeysFixpoint(keys);
  }

  /** Storing a policy's name and keys and reading them back gives the same policy, for exactly the policies in normal
   *  form. */
  lemma {:induction false} StorageRoundTrip(policy: Policy)
    ensures FromStorage(policy.Name(), policy.CustomKeys()) == Ok(policy) <==> InNormalForm(policy)
  {
    if policy.Custom? {
      FromCliNormal("default", policy.extraKeys);
      if InNormalForm(policy) { NormalKeysFixpoint(policy.extraKeys); }
    }
  }

  /** A stored key list that the policy leaves as it is names a policy in normal form. */
  lemma {:induction false} StoredKeysFixpoint(name: string, keys: seq<string>)
    requires FromStorage(name, keys).Ok? && FromStorage(name, keys).value.CustomKeys() == keys
    ensures var p := FromStorage(name, keys).value; p.Name() == name && InNormalForm(p)
  {
    FromCliNormal("default", keys);
  }

  /** Redactor and checker mask the same keys exactly when no extra key's normal form escapes the checker's list. */
  lemma {:induction false} SameKeysIff(policy: Policy)
    ensures (forall key :: Sensitive(policy.RedactorKeys(), key) == Sensitive(policy.CustomKeys(), key)) <==>
            (forall k :: k in policy.CustomKeys() ==>
              NormalizeKey(k) == [] || IsSensitiveKey(k) || NormalizeKey(k) in policy.CustomKeys())
  {
    var redactor, checker := policy.RedactorKeys(), policy.CustomKeys();
    if forall key :: Sensitive(redactor, key) == Sensitive(checker, key) {
      forall k | k in checker
        ensures NormalizeKey(k) == [] || IsSensitiveKey(k) || NormalizeKey(k) in checker
      {
        var i :| 0 <= i < |checker| && checker[i] == k;
        assert NormalizeKey(k) != [] ==> NormalizeKey(k) in redactor;
        assert Sensitive(redactor, k) == Sensitive(checker, k);
      }
    }
    if forall k :: k in checker ==> NormalizeKey(k) == [] || IsSensitiveKey(k) || NormalizeKey(k) in checker {
      forall key ensures Sensitive(redactor, key) == Sensitive(checker, key) {
        var n := NormalizeKey(key);
        if n != [] && n in redactor {
          var i :| 0 <= i < |checker| && NormalizeKey(checker[i]) == n;
          assert checker[i] in checker;
          NormalizeIdempotent(key);
          NormalizeIdempotent(checker[i]);
          assert IsSensitiveKey(checker[i]) ==> IsSensitiveKey(key);
        }
        if n != [] && n in checker {
          var i :| 0 <= i < |checker| && checker[i] == n;
          NormalizeIdempotent(key);
          assert NormalizeKey(checker[i]) == n;
        }
      }
    }
  }
}
