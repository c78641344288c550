/** `ConfigurationHelper`: null-safe reads of a plugin configuration. */
module ConfigurationHelper {
  import opened Wrappers
  import opened Xpp3

  /**
   * `safeConfig`: the value of the one child called `child`, or `defaultValue` when the
   * configuration is absent or has zero or several such children.
   */
  function SafeConfig(configuration: Option<Dom>, child: string, defaultValue: Option<string>): (r: Option<string>)
    ensures configuration.None? ==> r == defaultValue
    ensures configuration.Some? && CountNamed(configuration.value.children, child) != 1 ==> r == defaultValue
    ensures configuration.Some? && CountNamed(configuration.value.children, child) == 1 ==>
      forall k :: 0 <= k < |configuration.value.children| && configuration.value.children[k].name == child ==>
        r == configuration.value.children[k].value
  {
    match configuration
    case None => defaultValue
    case Some(c) =>
      var found := GetChildren(c, child);
      if |found| == 1 then
        assert forall k :: 0 <= k < |c.children| && c.children[k].name == child ==> c.children[k] == found[0] by {
          forall k | 0 <= k < |c.children| && c.children[k].name == child
            ensures c.children[k] == found[0]
          {
            var j :| 0 <= j < |c.children| && c.children[j] == found[0];
            OnlyNamed(c.children, child, k, j);
          }
        }
        found[0].value
      else defaultValue
  }

  /** `safeTiles`: the value of every child called `tiles`, one entry per child, in order. */
  function SafeTiles(configuration: Option<Dom>): (r: seq<Option<string>>)
    ensures configuration.None? ==> r == []
    ensures configuration.Some? ==> |r| == CountNamed(configuration.value.children, "tiles")
    ensures configuration.Some? ==>
      forall k :: 0 <= k < |r| ==> r[k] == GetChildren(configuration.value, "tiles")[k].value
  {
    match configuration
    case None => []
    case Some(c) =>
      var found := GetChildren(c, "tiles");
      seq(|found|, k requires 0 <= k < |found| => found[k].value)
  }
}
