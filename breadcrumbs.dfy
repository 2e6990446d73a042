/**
 * `pathComponents`: the breadcrumbs of the path bar, one per component of
 * the previewed folder's path, each with the path up to and including it.
 */
module Breadcrumbs {
  import opened Sequences

  /** A `PathComponent` without its icon. */
  datatype Crumb = Crumb(name: string, path: string)

  /** The name shown for the root of the file system. */
  const RootName: string := "Macintosh HD"

  /** A path whose first component is the root "/". */
  predicate Rooted(values: seq<string>) {
    |values| > 0 && values[0] == "/"
  }

  predicate NotSlash(c: string) {
    c != "/"
  }

  /** The names the breadcrumbs show: the root's name, then every other component except "/". */
  function Names(values: seq<string>): seq<string> {
    (if Rooted(values) then [RootName] else []) + Filtered(NotSlash, values)
  }

  /** The path of a component below `current`, without doubling the root's slash. */
  function Extend(current: string, component: string): (r: string)
    ensures current <= r
    ensures |r| > |current| || (current == "/" && component == "")
  {
    if current == "/" then current + component else current + "/" + component
  }

  /** A path that is empty or absolute. */
  predicate Absolute(p: string) {
    p == "" || p[0] == '/'
  }

  lemma ExtendAbsolute(current: string, component: string)
    requires Absolute(current)
    ensures Extend(current, component) != "" && Extend(current, component)[0] == '/'
  {
    var r := Extend(current, component);
    if current == "" {
      assert r == "/" + component;
    }
    assert r[0] == (if current == "" then '/' else current[0]);
  }

  /** No component of the path is empty, as is so for the components of a URL's path. */
  predicate NoEmptyComponent(values: seq<string>) {
    forall k | 0 <= k < |values| :: values[k] != ""
  }

  lemma NamesStep(values: seq<string>, i: nat)
    requires i < |values|
    ensures Names(values[..i + 1]) ==
      Names(values[..i]) + (if i == 0 && values[0] == "/" then [RootName] else if values[i] != "/" then [values[i]] else [])
  {
    assert values[..i + 1] == values[..i] + [values[i]];
    FilteredConcat(NotSlash, values[..i], [values[i]]);
    assert Filtered(NotSlash, [values[i]]) == (if values[i] != "/" then [values[i]] else []);
    if i == 0 {
      assert values[..0] == [];
    }
  }

  lemma NamesNonEmpty(values: seq<string>)
    requires NoEmptyComponent(values)
    ensures forall n | n in Names(values) :: n != ""
  {
    forall n | n in Names(values) ensures n != "" {
      if n != RootName {
        assert n in values;
        var k :| 0 <= k < |values| && values[k] == n;
      }
    }
  }

  /** The names the crumbs show, in order. */
  function NamesOf(cs: seq<Crumb>): (r: seq<string>)
    ensures |r| == |cs|
    ensures forall k | 0 <= k < |cs| :: r[k] == cs[k].name
  {
    seq(|cs|, k requires 0 <= k < |cs| => cs[k].name)
  }

  lemma NamesOfAppend(cs: seq<Crumb>, c: Crumb)
    ensures NamesOf(cs + [c]) == NamesOf(cs) + [c.name]
  {
    assert forall k | 0 <= k < |cs| :: (cs + [c])[k] == cs[k];
  }

  /** Each crumb's path is the previous one's extended by the crumb's name. */
  predicate Chained(cs: seq<Crumb>) {
    forall k | 0 < k < |cs| :: cs[k].path == Extend(cs[k - 1].path, cs[k].name)
  }

  /** Every crumb's path starts at the root. */
  predicate AllAbsolute(cs: seq<Crumb>) {
    forall k | 0 <= k < |cs| :: cs[k].path != "" && cs[k].path[0] == '/'
  }

  /** The paths grow strictly, so no two crumbs share one. */
  predicate Growing(cs: seq<Crumb>) {
    forall j, k | 0 <= j < k < |cs| :: |cs[j].path| < |cs[k].path|
  }

  /** The path the next crumb extends: the last crumb's, or "" before the first one. */
  function LastPath(cs: seq<Crumb>): string {
    if cs == [] then "" else cs[|cs| - 1].path
  }

  lemma ChainedAppend(cs: seq<Crumb>, component: string)
    requires Chained(cs)
    ensures Chained(cs + [Crumb(component, Extend(LastPath(cs), component))])
  {
    var r := cs + [Crumb(component, Extend(LastPath(cs), component))];
    forall k | 0 < k < |r| ensures r[k].path == Extend(r[k - 1].path, r[k].name) {
      if k < |cs| {
        assert r[k] == cs[k] && r[k - 1] == cs[k - 1];
      }
    }
  }

  /** A chain that starts at the root stays at the root. */
  lemma {:induction false} ChainedAbsolute(cs: seq<Crumb>)
    requires Chained(cs)
    requires |cs| > 0 ==> cs[0].path != "" && cs[0].path[0] == '/'
    ensures AllAbsolute(cs)
    decreases |cs|
  {
    if |cs| > 1 {
      var init := cs[..|cs| - 1];
      assert forall k | 0 <= k < |init| :: init[k] == cs[k];
      ChainedAbsolute(init);
      ExtendAbsolute(init[|init| - 1].path, cs[|cs| - 1].name);
    }
  }

  /** Paths that each outgrow the previous one all differ in length. */
  lemma {:induction false} StepsGrowing(cs: seq<Crumb>)
    requires forall k | 0 < k < |cs| :: |cs[k - 1].path| < |cs[k].path|
    ensures Growing(cs)
    decreases |cs|
  {
    if |cs| > 1 {
      var init := cs[..|cs| - 1];
      assert forall k | 0 <= k < |init| :: init[k] == cs[k];
      StepsGrowing(init);
      var last := |cs| - 1;
      forall j, k | 0 <= j < k < |cs| ensures |cs[j].path| < |cs[k].path| {
        if k < last {
          assert |init[j].path| < |init[k].path|;
        } else if j < last - 1 {
          assert |init[j].path| < |init[last - 1].path|;
        }
      }
    }
  }

  /** A chain of non-empty names never repeats a path. */
  lemma ChainedGrowing(cs: seq<Crumb>)
    requires Chained(cs)
    requires forall k | 0 < k < |cs| :: cs[k].name != ""
    ensures Growing(cs)
  {
    forall k | 0 < k < |cs| ensures |cs[k - 1].path| < |cs[k].path| {
      assert cs[k].path == Extend(cs[k - 1].path, cs[k].name);
    }
    StepsGrowing(cs);
  }

  /** What the first `i` components of `values` have built. */
  predicate Built(values: seq<string>, i: nat, cs: seq<Crumb>)
    requires i <= |values|
  {
    && NamesOf(cs) == Names(values[..i])
    && (Rooted(values) && i > 0 ==> |cs| > 0 && cs[0] == Crumb(RootName, "/"))
    && (!Rooted(values) && |cs| > 0 ==> cs[0].path == "/" + cs[0].name)
    && Chained(cs)
  }

  lemma InitiallyBuilt(values: seq<string>)
    ensures Built(values, 0, [])
  {
    assert values[..0] == [];
  }

  lemma RootBuilt(values: seq<string>, cs: seq<Crumb>)
    requires Rooted(values) && Built(values, 0, cs)
    ensures Built(values, 1, cs + [Crumb(RootName, "/")])
  {
    NamesStep(values, 0);
    assert values[..0] == [];
    assert cs == [];
    NamesOfAppend(cs, Crumb(RootName, "/"));
  }

  lemma ComponentBuilt(values: seq<string>, i: nat, cs: seq<Crumb>)
    requires i < |values| && values[i] != "/" && Built(values, i, cs)
    ensures Built(values, i + 1, cs + [Crumb(values[i], Extend(LastPath(cs), values[i]))])
  {
    var c := Crumb(values[i], Extend(LastPath(cs), values[i]));
    NamesStep(values, i);
    NamesOfAppend(cs, c);
    ChainedAppend(cs, values[i]);
    if cs == [] {
      assert (cs + [c])[0] == c;
    } else {
      assert (cs + [c])[0] == cs[0];
    }
  }

  /** A "/" after the first component adds no crumb. */
  lemma SlashSkipped(values: seq<string>, i: nat, cs: seq<Crumb>)
    requires 0 < i < |values| && values[i] == "/" && Built(values, i, cs)
    ensures Built(values, i + 1, cs)
  {
    NamesStep(values, i);
  }

  /**
   * The breadcrumbs of `values`: their names are `Names(values)` (so one per
   * component except "/", plus the root's); the root crumb is
   * ("Macintosh HD", "/"); a path not starting at the root gets "/" put in
   * front of its first component; each further path extends the previous
   * one by its name; every path is absolute; and, when no component is
   * empty, no two crumbs share a path (the `ForEach` over them is keyed by
   * path).
   */
  predicate CrumbsOf(values: seq<string>, cs: seq<Crumb>) {
    && NamesOf(cs) == Names(values)
    && |cs| == |Filtered(NotSlash, values)| + (if Rooted(values) then 1 else 0)
    && (Rooted(values) ==> |cs| > 0 && cs[0] == Crumb(RootName, "/"))
    && (!Rooted(values) && |cs| > 0 ==> cs[0].path == "/" + cs[0].name)
    && Chained(cs)
    && (forall k | 0 < k < |cs| :: cs[k - 1].path <= cs[k].path)
    && AllAbsolute(cs)
    && (NoEmptyComponent(values) ==> Growing(cs))
  }

  /** Once every component is processed, the breadcrumbs have the shape `pathComponents` promises. */
  lemma BuiltAll(values: seq<string>, cs: seq<Crumb>)
    requires Built(values, |values|, cs)
    ensures CrumbsOf(values, cs)
  {
    assert values[..|values|] == values;
    forall k | 0 < k < |cs| ensures cs[k - 1].path <= cs[k].path {
      assert cs[k].path == Extend(cs[k - 1].path, cs[k].name);
    }
    ChainedAbsolute(cs);
    if NoEmptyComponent(values) {
      NamesNonEmpty(values);
      forall k | 0 < k < |cs| ensures cs[k].name != "" {
        assert cs[k].name == Names(values)[k] && Names(values)[k] in Names(values);
      }
      ChainedGrowing(cs);
    }
  }

  /**
   * `pathComponents`. A leading "/" becomes the root crumb; every other
   * component except "/" gets a crumb whose path is the previous crumb's
   * path extended by the component.
   */
  method PathComponents(values: seq<string>) returns (components: seq<Crumb>)
    ensures CrumbsOf(values, components)
  {
    components := [];
    var currentPath := "";
    var i := 0;
    InitiallyBuilt(values);
    while i < |values|
      invariant 0 <= i <= |values|
      invariant Built(values, i, components)
      invariant currentPath == LastPath(components)
    {
      var component := values[i];
      if component == "/" && i == 0 {
        RootBuilt(values, components);
        currentPath := "/";
        components := components + [Crumb(RootName, "/")];
      } else if component != "/" {
        ComponentBuilt(values, i, components);
        currentPath := Extend(currentPath, component);
        components := components + [Crumb(component, currentPath)];
      } else {
        SlashSkipped(values, i, components);
      }
      assert LastPath(components) == currentPath;
      i := i + 1;
    }
    BuiltAll(values, components);
  }
}
