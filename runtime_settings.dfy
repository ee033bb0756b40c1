/**
 * InMemoryRuntimeSettings: named settings kept in memory, looked up ignoring case.
 * Names are stored under their case-folded form, which is how the ordinal
 * case-insensitive dictionary of the default constructor compares them.
 */
module RuntimeSettings {
  import opened Wrappers
  import opened Text

  const BlankName: Error := Argument("Value cannot be null or empty.")

  type Settings = map<string, Option<string>>

  /** _values[name] = value. */
  function Stored(values: Settings, name: string, value: Option<string>): Settings {
    values[Fold(name) := value]
  }

  /** TryGetValue(name, out value): the stored value, or null when the name was never set. */
  function Lookup(values: Settings, name: string): Option<string> {
    if Fold(name) in values then values[Fold(name)] else None
  }

  /**
   * After Set(n, v), reading n or any name equal to it ignoring case gives v, and every
   * other name reads as before.
   */
  lemma SetThenRead(values: Settings, n: string, v: Option<string>, m: string)
    ensures EqualsIgnoreCase(n, m) ==> Lookup(Stored(values, n, v), m) == v
    ensures !EqualsIgnoreCase(n, m) ==> Lookup(Stored(values, n, v), m) == Lookup(values, m)
  {
  }

  /** Names that differ only in the case of ASCII letters are the same setting. */
  lemma CaseVariantsShareSetting(values: Settings, n: string, m: string)
    requires |n| == |m|
    requires forall i :: 0 <= i < |n| ==> FoldChar(n[i]) == FoldChar(m[i])
    ensures Lookup(values, n) == Lookup(values, m)
  {
    assert Fold(n) == Fold(m);
  }

  class InMemoryRuntimeSettings {
    var values: Settings

    /** The default constructor: an empty case-insensitive dictionary. */
    constructor ()
      ensures values == map[]
      ensures forall n :: Lookup(values, n) == None
    {
      values := map[];
    }

    /** Set(name, value): a blank name throws; otherwise the value is stored and the same instance returned. */
    method Set(name: Option<string>, value: Option<string>) returns (r: Result<InMemoryRuntimeSettings>)
      modifies this
      ensures IsNullOrWhiteSpace(name) ==> r == Err(BlankName) && values == old(values)
      ensures !IsNullOrWhiteSpace(name) ==> r == Ok(this) && values == Stored(old(values), name.value, value)
    {
      if IsNullOrWhiteSpace(name) {
        return Err(BlankName);
      }
      values := Stored(values, name.value, value);
      r := Ok(this);
    }

    /** The indexer: a blank name throws; otherwise the stored value or null. */
    function Get(name: Option<string>): (r: Result<Option<string>>)
      reads this
      ensures r.Err? <==> IsNullOrWhiteSpace(name)
      ensures r.Err? ==> r.error == BlankName
      ensures r.Ok? ==> r.value == Lookup(values, name.value)
    {
      if IsNullOrWhiteSpace(name) then Err(BlankName) else Ok(Lookup(values, name.value))
    }

    function Environment(): Option<string>
      reads this
    {
      Lookup(values, "Environment")
    }

    function ApplicationName(): Option<string>
      reads this
    {
      Lookup(values, "ApplicationName")
    }

    function InstanceName(): Option<string>
      reads this
    {
      Lookup(values, "InstanceName")
    }
  }

  /** The three named properties read the settings "Environment", "ApplicationName" and "InstanceName" through the indexer. */
  lemma NamedSettings(s: InMemoryRuntimeSettings)
    ensures s.Get(Some("Environment")) == Ok(s.Environment())
    ensures s.Get(Some("ApplicationName")) == Ok(s.ApplicationName())
    ensures s.Get(Some("InstanceName")) == Ok(s.InstanceName())
  {
    NotBlank("Environment");
    NotBlank("ApplicationName");
    NotBlank("InstanceName");
  }

  lemma NotBlank(s: string)
    requires |s| > 0 && 'A' <= s[0] <= 'Z'
    ensures !IsNullOrWhiteSpace(Some(s))
  {
    assert !IsWhiteSpace(s[0]);
  }
}
