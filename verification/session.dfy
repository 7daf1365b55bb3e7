/**
 * The "user_session" preference file: a persisted map from keys to booleans.
 * The only key the application writes is `is_logged_in`.
 */
module Session {
  const LoggedInKey: string := "is_logged_in"

  class Preferences {
    var values: map<string, bool>

    constructor (values: map<string, bool>)
      ensures this.values == values
    {
      this.values := values;
    }

    /** `getBoolean(key, default)`: the stored value, or `default` when the key is absent. */
    function GetBoolean(key: string, default: bool): (r: bool)
      reads this
      ensures key in values ==> r == values[key]
      ensures key !in values ==> r == default
    {
      if key in values then values[key] else default
    }

    /** `edit().putBoolean(key, value).apply()`. */
    method PutBoolean(key: string, value: bool)
      modifies this
      ensures values == old(values)[key := value]
    {
      values := values[key := value];
    }

    /** `edit().clear().apply()`. */
    method Clear()
      modifies this
      ensures values == map[]
    {
      values := map[];
    }
  }
}
