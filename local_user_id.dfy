/**
 * `LocalUserIDProvider.deviceUUID`: a per-device identifier kept in the
 * user defaults, created on first use.
 */
module LocalUserId {
  import opened Wrappers
  import opened Uuids

  const Key := "mealink_local_user_id"

  /** The string entries of `UserDefaults.standard`. */
  class Defaults {
    var values: map<string, string>

    constructor(values: map<string, string>)
      ensures this.values == values
    {
      this.values := values;
    }
  }

  /**
   * What `deviceUUID` answers and what the defaults hold afterwards:
   * a stored entry that parses as a UUID is reused, anything else is
   * replaced by `generated`, written as its `uuidString`.
   */
  function DeviceUuidSpec(values: map<string, string>, generated: Uuid): (map<string, string>, Uuid) {
    if Key in values && Parse(values[Key]).Some? then (values, Parse(values[Key]).value)
    else (values[Key := Format(generated)], generated)
  }

  /** `deviceUUID`; `generated` stands for the `UUID()` drawn when none is stored. */
  method DeviceUuid(defaults: Defaults, generated: Uuid) returns (id: Uuid)
    modifies defaults
    ensures (defaults.values, id) == DeviceUuidSpec(old(defaults.values), generated)
  {
    if Key in defaults.values {
      var stored := Parse(defaults.values[Key]);
      if stored.Some? {
        return stored.value;
      }
    }
    id := generated;
    defaults.values := defaults.values[Key := Format(id)];
  }

  /** Afterwards the defaults hold a string that reads back as the identifier returned. */
  lemma DeviceUuidStored(values: map<string, string>, generated: Uuid)
    ensures Key in DeviceUuidSpec(values, generated).0
    ensures Parse(DeviceUuidSpec(values, generated).0[Key]) == Some(DeviceUuidSpec(values, generated).1)
  {
    ParseFormat(generated);
  }

  /** The identifier is stable: a later call, whatever it would draw, answers the same and writes nothing. */
  lemma DeviceUuidStable(values: map<string, string>, first: Uuid, second: Uuid)
    ensures var (after, id) := DeviceUuidSpec(values, first);
      DeviceUuidSpec(after, second) == (after, id)
  {
    DeviceUuidStored(values, first);
  }

  /** Only the identifier's own entry is ever written. */
  lemma DeviceUuidOnlyOwnKey(values: map<string, string>, generated: Uuid, k: string)
    requires k != Key
    ensures k in DeviceUuidSpec(values, generated).0 <==> k in values
    ensures k in values ==> DeviceUuidSpec(values, generated).0[k] == values[k]
  {
  }
}
