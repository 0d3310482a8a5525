// Masking of the stored license key for display
// (apps/desktop/src/renderer/components/LicenseSettings.tsx). The key is
// rewritten by one global regular-expression replacement whose look-ahead
// reads the original string, so every position is decided on its own.
module LicenseMask {
  import opened Wrappers
  import opened Text

  /** Whether `[A-Za-z0-9](?=[A-Za-z0-9]{4})` matches at position i: an alphanumeric character followed by four more. */
  predicate FollowedByFourAlnum(s: string, i: nat)
    requires i < |s|
  {
    IsAlnum(s[i]) && i + 4 < |s|
    && IsAlnum(s[i + 1]) && IsAlnum(s[i + 2]) && IsAlnum(s[i + 3]) && IsAlnum(s[i + 4])
  }

  /** The replacement as written: each position the pattern matches becomes 'X'. */
  function MaskAsWritten(s: string): (r: string)
    ensures |r| == |s|
    ensures forall i :: 0 <= i < |s| ==> (IsAlnum(r[i]) <==> IsAlnum(s[i]))
    ensures forall i :: 0 <= i < |s| && !IsAlnum(s[i]) ==> r[i] == s[i]
    ensures forall i :: 0 <= i < |s| && |s| <= i + 4 ==> r[i] == s[i]
    ensures forall i :: 0 <= i < |s| && r[i] != s[i] ==> r[i] == 'X'
    ensures forall i :: 0 <= i < |s| && FollowedByFourAlnum(s, i) ==> r[i] == 'X'
    ensures forall i :: 0 <= i < |s| && s[i] != 'X' ==> (r[i] == 'X' <==> FollowedByFourAlnum(s, i))
  {
    seq(|s|, i requires 0 <= i < |s| => if FollowedByFourAlnum(s, i) then 'X' else s[i])
  }

  /** Masking is idempotent: the character classes do not change, so the same positions match again. */
  lemma MaskAsWrittenIdempotent(s: string)
    ensures MaskAsWritten(MaskAsWritten(s)) == MaskAsWritten(s)
  {
    var r := MaskAsWritten(s);
    forall i | 0 <= i < |s|
      ensures FollowedByFourAlnum(r, i) == FollowedByFourAlnum(s, i)
    {
    }
  }

  /** A key without five consecutive alphanumeric characters is shown unmasked. */
  lemma ShortRunsUnmasked(s: string)
    requires forall i :: 0 <= i < |s| ==> !FollowedByFourAlnum(s, i)
    ensures MaskAsWritten(s) == s
  {
  }

  /** The dash-grouped key format. */
  const GroupedKey: string := "ABCD-EFGH-IJKL-MNOP"

  /** A key in groups of four shows every character in clear, though only the last four are meant to be visible. */
  lemma GroupedKeyUnmasked()
    ensures MaskAsWritten(GroupedKey) == GroupedKey
    ensures MaskKeepingLastFour(GroupedKey) == "XXXX-XXXX-XXXX-MNOP"
  {
    forall i | 0 <= i < |GroupedKey|
      ensures !FollowedByFourAlnum(GroupedKey, i)
    {
      assert GroupedKey[4] == '-' && GroupedKey[9] == '-' && GroupedKey[14] == '-';
    }
    ShortRunsUnmasked(GroupedKey);
  }

  /** What the masking is for: every letter and digit before the last four characters becomes 'X'; the separators and the last four stay. */
  function MaskKeepingLastFour(s: string): (r: string)
    ensures |r| == |s|
    ensures forall i :: 0 <= i < |s| && !IsAlnum(s[i]) ==> r[i] == s[i]
    ensures forall i :: 0 <= i < |s| && |s| <= i + 4 ==> r[i] == s[i]
    ensures forall i :: 0 <= i && i + 4 < |s| ==> !IsAlnum(r[i]) || r[i] == 'X'
    ensures forall i :: 0 <= i < |s| ==> (IsAlnum(r[i]) <==> IsAlnum(s[i]))
  {
    seq(|s|, i requires 0 <= i < |s| => if IsAlnum(s[i]) && i + 4 < |s| then 'X' else s[i])
  }

  lemma MaskKeepingLastFourIdempotent(s: string)
    ensures MaskKeepingLastFour(MaskKeepingLastFour(s)) == MaskKeepingLastFour(s)
  {
  }

  /** On a key made of letters and digits only, the written replacement already does what is meant. */
  lemma PlainKeysAgree(s: string)
    requires forall i :: 0 <= i < |s| ==> IsAlnum(s[i])
    ensures MaskAsWritten(s) == MaskKeepingLastFour(s)
  {
  }

  /**
   * `maskLicenseKey`: a missing or empty key shows as the empty string;
   * otherwise the replacement as written, so a character is shown as 'X'
   * exactly when four letters or digits follow it.
   */
  function MaskLicenseKey(key: Option<string>): (r: string)
    ensures key.None? || key.value == "" ==> r == ""
    ensures key.Some? && key.value != "" ==> r == MaskAsWritten(key.value)
    ensures key.Some? ==> |r| == |key.value|
    ensures key.Some? ==> forall i :: 0 <= i < |r| && !IsAlnum(key.value[i]) ==> r[i] == key.value[i]
    ensures key.Some? ==> forall i :: 0 <= i < |r| && |r| <= i + 4 ==> r[i] == key.value[i]
    ensures key.Some? ==> forall i :: 0 <= i < |r| && key.value[i] != 'X' ==>
      (r[i] == 'X' <==> FollowedByFourAlnum(key.value, i))
  {
    if key.None? || key.value == "" then "" else MaskAsWritten(key.value)
  }

  /** The stored grouped key is displayed in full. */
  lemma GroupedKeyDisplayedInFull()
    ensures MaskLicenseKey(Some(GroupedKey)) == GroupedKey
  {
    GroupedKeyUnmasked();
  }
}
