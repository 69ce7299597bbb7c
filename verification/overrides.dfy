/** Command-line overrides and the `grunt.option(key) || fallback` rule every
    configurable value of the build goes through. */
module Overrides {
  import opened Wrappers

  /** The command-line options: each given key with its string value. */
  type OptionSet = map<string, string>

  /** `grunt.option(key)`: the value, or `undefined` when the key was not
      given. */
  function Lookup(opts: OptionSet, key: string): Option<string>
  {
    if key in opts then Some(opts[key]) else None
  }

  /** JavaScript truthiness of a possibly undefined string: `undefined` and
      the empty string are falsy, every other string is truthy. */
  predicate Truthy(v: Option<string>)
  {
    v.Some? && v.value != ""
  }

  /** `grunt.option(key) || fallback`: `||` yields its left operand when that
      is truthy and its right operand otherwise. */
  function OptionOr(opts: OptionSet, key: string, fallback: string): (r: string)
    ensures key in opts && opts[key] != "" ==> r == opts[key]
    ensures key !in opts || opts[key] == "" ==> r == fallback
  {
    var given := Lookup(opts, key);
    if Truthy(given) then given.value else fallback
  }

  /** An empty override is indistinguishable from none at all. */
  lemma EmptyOverrideIsAbsent(opts: OptionSet, key: string, fallback: string)
    ensures OptionOr(opts[key := ""], key, fallback) == OptionOr(opts - {key}, key, fallback)
    ensures OptionOr(opts[key := ""], key, fallback) == fallback
  {
  }

  /** Setting one option leaves the value resolved for every other key
      unchanged. */
  lemma OptionOrOtherKey(opts: OptionSet, key: string, other: string, v: string, fallback: string)
    requires key != other
    ensures OptionOr(opts[other := v], key, fallback) == OptionOr(opts, key, fallback)
  {
  }
}
