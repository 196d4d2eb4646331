/**
 * The start-up check on the OpenAI key read from the environment: the
 * application refuses to run unless the key is present, non-empty and
 * begins with "sk-".
 */
module ApiKey {
  import opened Wrappers
  import opened Strings

  const KeyPrefix := "sk-"

  /** The key passes the check; a missing key is `None`. */
  function Accepted(key: Option<string>): (ok: bool)
    ensures ok <==> key.Some? && |key.value| >= |KeyPrefix| && key.value[..|KeyPrefix|] == KeyPrefix
  {
    // `not api_key or not api_key.startswith('sk-')` rejects the key
    !(key.None? || |key.value| == 0 || !StartsWith(key.value, KeyPrefix))
  }

  /** Every key of the form "sk-" followed by anything is accepted, and a key is
      accepted only if it has that form. */
  lemma AcceptedIffPrefixed(key: Option<string>)
    ensures Accepted(key) <==> exists rest :: key == Some(KeyPrefix + rest)
  {
    if Accepted(key) {
      assert key.value == key.value[..|KeyPrefix|] + key.value[|KeyPrefix|..];
      assert key == Some(KeyPrefix + key.value[|KeyPrefix|..]);
    }
    if exists rest :: key == Some(KeyPrefix + rest) {
      var rest :| key == Some(KeyPrefix + rest);
      assert key.value[..|KeyPrefix|] == KeyPrefix;
    }
  }

  /** Sample verdicts: no key, an empty key and a key with another prefix are refused. */
  lemma AcceptedExamples(rest: string)
    ensures Accepted(Some(KeyPrefix + rest))
    ensures !Accepted(None)
    ensures !Accepted(Some(""))
    ensures !Accepted(Some("pk-" + rest))
    ensures !Accepted(Some("sk"))
  {
    assert (KeyPrefix + rest)[..3] == KeyPrefix;
    assert ("pk-" + rest)[0] == 'p';
  }
}
