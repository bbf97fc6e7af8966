/** The option lookups shared by both transports (transport.go). A transport's
    `options` are never written after construction, so the lookups are
    functions of the options map. */
module Transport {
  import opened Records

  /** Option key of the project credential. */
  const KeyProjectKey: string := "project_key"

  /** `GetOption`: the value stored under `key` and whether it is present;
      an absent key yields the nil interface. */
  function GetOption(options: Options, key: string): (r: (Value, bool))
    ensures r.1 <==> key in options
    ensures r.1 ==> r.0 == options[key]
    ensures !r.1 ==> r.0 == VNil
  {
    if key in options then (options[key], true) else (VNil, false)
  }

  /** `GetProjectKey`: the "project_key" option when it holds a string, else "". */
  function GetProjectKey(options: Options): (key: string)
    ensures KeyProjectKey in options && options[KeyProjectKey].VString? ==> key == options[KeyProjectKey].s
    ensures !(KeyProjectKey in options && options[KeyProjectKey].VString?) ==> key == ""
  {
    match GetOption(options, KeyProjectKey)
    case (VString(s), true) => s
    case _ => ""
  }

  /** The project key only depends on the "project_key" entry: adding or
      changing any other option leaves it as it was. */
  lemma ProjectKeyIgnoresOtherOptions(options: Options, k: string, v: Value)
    requires k != KeyProjectKey
    ensures GetProjectKey(options[k := v]) == GetProjectKey(options)
  {
    assert (KeyProjectKey in options[k := v]) == (KeyProjectKey in options);
  }
}
