/**
 * How `onStateChange` reads a geofence update: which state ids it listens to
 * (the device key the id pattern captures), how the raw value is normalised,
 * and which values name a customer and which mean "in no geofence".
 */
module Geofence {
  import opened Wrappers
  import opened Text

  // ---------------------------------------------------------------------------
  // The state id pattern /(traccar\.0\.devices\.\d+)\.geofences_string/
  // ---------------------------------------------------------------------------

  const DevicePrefix: string := "traccar.0.devices."
  const StateSuffix: string := ".geofences_string"

  /** The end of the run of digits that starts at `i`. */
  function DigitRun(s: string, i: nat): (j: nat)
    requires i <= |s|
    ensures i <= j <= |s| && AllDigits(s[i..j])
    ensures j == |s| || !IsDigit(s[j])
    decreases |s| - i
  {
    if i < |s| && IsDigit(s[i]) then
      var j := DigitRun(s, i + 1);
      assert s[i..j] == [s[i]] + s[i + 1..j];
      j
    else
      i
  }

  /**
   * The pattern matched at position `i`: the prefix, the greedy run of one or
   * more digits, then the suffix. A shorter run would leave a digit where the
   * suffix's `.` must be, so backtracking never finds another match here.
   * The result is the captured group `match[1]`.
   */
  function MatchAt(s: string, i: nat): Option<string>
    requires i <= |s|
  {
    var n := i + |DevicePrefix|;
    if n <= |s| && s[i..n] == DevicePrefix then
      var j := DigitRun(s, n);
      if n < j && j + |StateSuffix| <= |s| && s[j..j + |StateSuffix|] == StateSuffix then Some(s[i..j]) else None
    else
      None
  }

  /** The leftmost match at or after position `i`. */
  function MatchFrom(s: string, i: nat): Option<string>
    requires i <= |s|
    decreases |s| - i
  {
    if MatchAt(s, i).Some? then MatchAt(s, i)
    else if i == |s| then None
    else MatchFrom(s, i + 1)
  }

  /** `id.match(...)`: the device key `match[1]`, or `None` when the id does not match. */
  function DeviceKeyOf(id: string): Option<string>
  {
    MatchFrom(id, 0)
  }

  /** The pattern, written out: `id` holds prefix, digits and suffix at position `i`, and the key is prefix and digits. */
  predicate Occurs(id: string, i: nat, key: string)
  {
    && |DevicePrefix| < |key|
    && key[..|DevicePrefix|] == DevicePrefix
    && AllDigits(key[|DevicePrefix|..])
    && i + |key| + |StateSuffix| <= |id|
    && id[i..i + |key|] == key
    && id[i + |key|..i + |key| + |StateSuffix|] == StateSuffix
  }

  /** A match at `i` is an occurrence of the pattern there, and every occurrence at `i` is the match there. */
  lemma MatchAtOccurs(s: string, i: nat, key: string)
    requires i <= |s|
    ensures MatchAt(s, i) == Some(key) <==> Occurs(s, i, key)
  {
    var n := i + |DevicePrefix|;
    if MatchAt(s, i) == Some(key) {
      var j := DigitRun(s, n);
      assert key == s[i..j];
      assert key[..|DevicePrefix|] == s[i..n];
      assert key[|DevicePrefix|..] == s[n..j];
    }
    if Occurs(s, i, key) {
      var j := i + |key|;
      assert s[i..n] == key[..|DevicePrefix|];
      assert s[n..j] == key[|DevicePrefix|..];
      assert s[j] == StateSuffix[0] == '.';
      DigitRunStops(s, n, j);
    }
  }

  /** A run of digits followed by a non-digit is the run `DigitRun` finds. */
  lemma {:induction false} DigitRunStops(s: string, i: nat, j: nat)
    requires i <= j <= |s| && AllDigits(s[i..j]) && (j == |s| || !IsDigit(s[j]))
    ensures DigitRun(s, i) == j
    decreases j - i
  {
    if i < j {
      assert IsDigit(s[i..j][0]);
      assert s[i + 1..j] == s[i..j][1..];
      DigitRunStops(s, i + 1, j);
    }
  }

  /** The match is the leftmost occurrence: one at `k >= i`, and none between `i` and `k`. */
  lemma {:induction false} MatchFromLeftmost(s: string, i: nat)
    requires i <= |s|
    ensures MatchFrom(s, i).None? ==> forall k :: i <= k <= |s| ==> MatchAt(s, k).None?
    ensures MatchFrom(s, i).Some? ==>
      exists k :: i <= k <= |s| && MatchAt(s, k) == MatchFrom(s, i) && forall m :: i <= m < k ==> MatchAt(s, m).None?
    decreases |s| - i
  {
    if MatchAt(s, i).None? && i < |s| {
      MatchFromLeftmost(s, i + 1);
      if MatchFrom(s, i).Some? {
        var k :| i + 1 <= k <= |s| && MatchAt(s, k) == MatchFrom(s, i + 1) && forall m :: i + 1 <= m < k ==> MatchAt(s, m).None?;
        assert forall m :: i <= m < k ==> MatchAt(s, m).None?;
      }
    }
  }

  /** The geofence state of device `n` yields device key `traccar.0.devices.<n>`. */
  lemma DeviceKeyOfStateId(n: nat)
    ensures DeviceKeyOf(DevicePrefix + NatToString(n) + StateSuffix) == Some(DevicePrefix + NatToString(n))
  {
    var key := DevicePrefix + NatToString(n);
    var id := key + StateSuffix;
    assert key[..|DevicePrefix|] == DevicePrefix;
    assert key[|DevicePrefix|..] == NatToString(n);
    assert id[0..|key|] == key;
    assert id[|key|..|key| + |StateSuffix|] == StateSuffix;
    assert Occurs(id, 0, key);
    MatchAtOccurs(id, 0, key);
  }

  /** An id with no occurrence of the pattern yields no device key. */
  lemma DeviceKeyOfNone(id: string)
    requires forall i, key :: 0 <= i <= |id| ==> !Occurs(id, i, key)
    ensures DeviceKeyOf(id) == None
  {
    MatchFromLeftmost(id, 0);
    if DeviceKeyOf(id).Some? {
      var k :| 0 <= k <= |id| && MatchAt(id, k) == DeviceKeyOf(id) && forall m :: 0 <= m < k ==> MatchAt(id, m).None?;
      MatchAtOccurs(id, k, DeviceKeyOf(id).value);
    }
  }

  // ---------------------------------------------------------------------------
  // The geofence value
  // ---------------------------------------------------------------------------

  /** `newValue && newValue !== '0' && newValue.toLowerCase() !== 'null'`. */
  predicate IsCustomerKey(v: string)
  {
    v != "" && v != "0" && LowerAscii(v) != "null"
  }

  /** `v` spells `null` in any mix of upper and lower case. */
  predicate SpellsNull(v: string)
  {
    && |v| == 4
    && (v[0] == 'n' || v[0] == 'N')
    && (v[1] == 'u' || v[1] == 'U')
    && (v[2] == 'l' || v[2] == 'L')
    && (v[3] == 'l' || v[3] == 'L')
  }

  /**
   * The sentinel values meaning "in no geofence": after trimming, the empty
   * string, `0`, or `null` in any letter case. Every other trimmed value is a
   * customer key.
   */
  lemma CustomerKeyCases(v: string)
    ensures !IsCustomerKey(v) <==> v == "" || v == "0" || SpellsNull(v)
  {
    if LowerAscii(v) == "null" {
      assert |v| == 4;
      assert LowerChar(v[0]) == 'n' && LowerChar(v[1]) == 'u' && LowerChar(v[2]) == 'l' && LowerChar(v[3]) == 'l';
    }
    if SpellsNull(v) {
      assert LowerAscii(v) == "null";
    }
  }
}
