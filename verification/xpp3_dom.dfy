/**
 * The plugin-configuration tree (plexus `Xpp3Dom`) reduced to what the tiles core reads:
 * a name, an optional text value, attributes and an ordered child list.
 */
module Xpp3 {
  import opened Wrappers
  import opened Seqs

  datatype Dom = Dom(name: string, value: Option<string>, attributes: map<string, string>, children: seq<Dom>)

  /** `getAttribute(name)`: the attribute's value, `None` when absent. */
  function GetAttribute(d: Dom, name: string): (r: Option<string>)
    ensures r.Some? <==> name in d.attributes
    ensures r.Some? ==> r.value == d.attributes[name]
  {
    if name in d.attributes then Some(d.attributes[name]) else None
  }

  /** How many of `cs` are called `name`. */
  function CountNamed(cs: seq<Dom>, name: string): nat {
    if cs == [] then 0 else (if cs[0].name == name then 1 else 0) + CountNamed(cs[1..], name)
  }

  /** Two different positions holding `name` make the count at least two. */
  lemma {:induction false} CountNamedTwo(cs: seq<Dom>, name: string, i: nat, j: nat)
    requires i < j < |cs| && cs[i].name == name && cs[j].name == name
    ensures CountNamed(cs, name) >= 2
  {
    if i > 0 {
      CountNamedTwo(cs[1..], name, i - 1, j - 1);
    } else {
      CountNamedOne(cs[1..], name, j - 1);
    }
  }

  lemma {:induction false} CountNamedOne(cs: seq<Dom>, name: string, j: nat)
    requires j < |cs| && cs[j].name == name
    ensures CountNamed(cs, name) >= 1
  {
    if j > 0 {
      CountNamedOne(cs[1..], name, j - 1);
    }
  }

  /** With exactly one child called `name`, every position holding that name is the same one. */
  lemma OnlyNamed(cs: seq<Dom>, name: string, i: nat, j: nat)
    requires CountNamed(cs, name) == 1
    requires i < |cs| && j < |cs| && cs[i].name == name && cs[j].name == name
    ensures i == j
  {
    if i < j {
      CountNamedTwo(cs, name, i, j);
    } else if j < i {
      CountNamedTwo(cs, name, j, i);
    }
  }

  /** The children of a list called `name`, in document order. */
  function Named(cs: seq<Dom>, name: string): (r: seq<Dom>)
    ensures |r| == CountNamed(cs, name)
    ensures forall k :: 0 <= k < |r| ==> r[k].name == name && r[k] in cs
    ensures IsSubsequence(r, cs)
  {
    if cs == [] then []
    else if cs[0].name == name then
      var rest := Named(cs[1..], name);
      assert ([cs[0]] + rest)[1..] == rest;
      [cs[0]] + rest
    else Named(cs[1..], name)
  }

  /** `getChildren(name)`: every child called `name`, in document order. */
  function GetChildren(d: Dom, name: string): (r: seq<Dom>)
    ensures |r| == CountNamed(d.children, name)
    ensures forall k :: 0 <= k < |r| ==> r[k].name == name && r[k] in d.children
    ensures IsSubsequence(r, d.children)
  {
    Named(d.children, name)
  }

  /** The index of the last of `cs` called `name`. */
  function LastIndexNamed(cs: seq<Dom>, name: string): (r: Option<nat>)
    ensures r.None? <==> CountNamed(cs, name) == 0
    ensures r.Some? ==> r.value < |cs| && cs[r.value].name == name
    ensures r.Some? ==> forall k :: r.value < k < |cs| ==> cs[k].name != name
    decreases |cs|
  {
    if cs == [] then None
    else
      assert cs[..|cs| - 1] + [cs[|cs| - 1]] == cs;
      CountNamedSplit(cs[..|cs| - 1], [cs[|cs| - 1]], name);
      if cs[|cs| - 1].name == name then Some(|cs| - 1)
      else LastIndexNamed(cs[..|cs| - 1], name)
  }

  lemma {:induction false} CountNamedSplit(a: seq<Dom>, b: seq<Dom>, name: string)
    ensures CountNamed(a + b, name) == CountNamed(a, name) + CountNamed(b, name)
  {
    if a == [] {
      assert a + b == b;
    } else {
      assert (a + b)[1..] == a[1..] + b;
      CountNamedSplit(a[1..], b, name);
    }
  }

  /**
   * `getChild(name)`. plexus-utils searches the child list from the end, so with several
   * children of one name it is the last of them that is returned.
   */
  function GetChild(d: Dom, name: string): (r: Option<Dom>)
    ensures r.None? <==> CountNamed(d.children, name) == 0
    ensures r.Some? ==> r.value.name == name && r.value in d.children
  {
    match LastIndexNamed(d.children, name)
    case None => None
    case Some(k) => Some(d.children[k])
  }

  /** No child after the one `GetChild` finds has the same name. */
  lemma GetChildIsLast(d: Dom, name: string)
    requires GetChild(d, name).Some?
    ensures exists k :: 0 <= k < |d.children| && d.children[k] == GetChild(d, name).value
                        && forall j :: k < j < |d.children| ==> d.children[j].name != name
  {
    var k := LastIndexNamed(d.children, name).value;
    assert d.children[k] == GetChild(d, name).value;
  }

  /** `d` with the child that `GetChild(d, name)` returns replaced by `c`. */
  function ReplaceChild(d: Dom, name: string, c: Dom): (r: Dom)
    ensures r.name == d.name && r.value == d.value && r.attributes == d.attributes
    ensures |r.children| == |d.children|
    ensures CountNamed(d.children, name) == 0 ==> r == d
    ensures GetChild(d, name).Some? && c.name == name ==> GetChild(r, name) == Some(c)
    ensures forall k :: 0 <= k < |d.children| && d.children[k] != r.children[k] ==> Some(d.children[k]) == GetChild(d, name)
  {
    match LastIndexNamed(d.children, name)
    case None => d
    case Some(k) =>
      ReplacedIsLast(d.children, name, k, c);
      d.(children := d.children[k := c])
  }

  lemma ReplacedIsLast(cs: seq<Dom>, name: string, k: nat, c: Dom)
    requires LastIndexNamed(cs, name) == Some(k)
    ensures c.name == name ==> LastIndexNamed(cs[k := c], name) == Some(k)
  {
    if c.name == name {
      var r := cs[k := c];
      CountNamedOne(r, name, k);
    }
  }

  /**
   * `Xpp3Dom.mergeXpp3Dom(target, source, false)` read as list-append: `target` keeps its own
   * children and gains `source`'s after them.
   */
  function AppendChildren(target: Dom, source: Dom): (r: Dom)
    ensures r.name == target.name && r.value == target.value && r.attributes == target.attributes
    ensures |r.children| == |target.children| + |source.children|
    ensures r.children[..|target.children|] == target.children
    ensures r.children[|target.children|..] == source.children
  {
    target.(children := target.children + source.children)
  }
}
