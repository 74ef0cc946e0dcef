/**
 * The navigation state of the main layout: which menu entries are
 * selected and which sub-menus are open for the current pathname, and the
 * breadcrumb trail built from the pathname's segments.
 */
module MainLayout {
  import opened Common

  /** A menu entry; only the first level of `children` is ever consulted. */
  datatype MenuItem = MenuItem(key: string, caption: string, path: Option<string>, children: Option<seq<MenuItem>>)

  /** The menu of the layout. */
  const Menu: seq<MenuItem> := [
    MenuItem("dashboard", "仪表盘", Some("/"), None),
    MenuItem("kg", "知识图谱", None, Some([
      MenuItem("kg-visualization", "图谱可视化", Some("/kg-visualization"), None),
      MenuItem("kg-pipelines", "构建流程", Some("/kg-pipelines"), None)])),
    MenuItem("data-sources", "数据源管理", Some("/data-sources"), None),
    MenuItem("nl2sql", "智能问答", Some("/nl2sql"), None)]

  /** `item.path && pathname.startsWith(item.path)`. */
  predicate Matches(path: Option<string>, pathname: string)
  {
    path.Some? && path.value != "" && StartsWith(pathname, path.value)
  }

  // ---------------------------------------------------------------
  // Selected keys
  // ---------------------------------------------------------------

  /** The matching paths among the children, in order. */
  function ChildSelections(children: seq<MenuItem>, pathname: string): seq<string>
    decreases |children|
  {
    if |children| == 0 then []
    else
      var last := children[|children| - 1];
      ChildSelections(children[..|children| - 1], pathname) + (if Matches(last.path, pathname) then [last.path.value] else [])
  }

  /** What one top-level entry contributes: its own path, then its children's. */
  function ItemSelections(item: MenuItem, pathname: string): seq<string>
  {
    (if Matches(item.path, pathname) then [item.path.value] else [])
    + (if item.children.Some? then ChildSelections(item.children.value, pathname) else [])
  }

  /** The `selectedKeys` accumulator over the menu. */
  function SelectedKeys(items: seq<MenuItem>, pathname: string): seq<string>
    decreases |items|
  {
    if |items| == 0 then []
    else SelectedKeys(items[..|items| - 1], pathname) + ItemSelections(items[|items| - 1], pathname)
  }

  /** Entry `item` selects the path `k`, itself or through one of its children. */
  predicate Selects(item: MenuItem, pathname: string, k: string)
  {
    (Matches(item.path, pathname) && item.path.value == k)
    || (item.children.Some? && exists j :: (0 <= j < |item.children.value|
          && Matches(item.children.value[j].path, pathname) && item.children.value[j].path.value == k))
  }

  lemma {:induction false} ChildSelectionsMembers(children: seq<MenuItem>, pathname: string)
    ensures forall k :: k in ChildSelections(children, pathname) <==>
      exists j :: 0 <= j < |children| && Matches(children[j].path, pathname) && children[j].path.value == k
    decreases |children|
  {
    if |children| > 0 {
      var init := children[..|children| - 1];
      ChildSelectionsMembers(init, pathname);
      assert forall j :: 0 <= j < |init| ==> init[j] == children[j];
    }
  }

  /**
   * A path is selected exactly when some top-level entry, or a child of
   * one, has that path and the pathname starts with it.
   */
  lemma {:induction false} SelectedKeysMembers(items: seq<MenuItem>, pathname: string)
    ensures forall k :: k in SelectedKeys(items, pathname) <==> exists i :: 0 <= i < |items| && Selects(items[i], pathname, k)
    decreases |items|
  {
    if |items| > 0 {
      var init := items[..|items| - 1];
      var last := items[|items| - 1];
      SelectedKeysMembers(init, pathname);
      if last.children.Some? {
        ChildSelectionsMembers(last.children.value, pathname);
      }
      assert forall i :: 0 <= i < |init| ==> init[i] == items[i];
      forall k
        ensures k in SelectedKeys(items, pathname) <==> exists i :: 0 <= i < |items| && Selects(items[i], pathname, k)
      {
        if k in SelectedKeys(items, pathname) && !(k in SelectedKeys(init, pathname)) {
          assert Selects(items[|items| - 1], pathname, k);
        }
      }
    }
  }

  /** The dashboard path `/` prefixes every absolute pathname, so it is always the first selection. */
  lemma DashboardAlwaysSelected(pathname: string)
    requires |pathname| > 0 && pathname[0] == '/'
    ensures |SelectedKeys(Menu, pathname)| > 0 && SelectedKeys(Menu, pathname)[0] == "/"
  {
    assert Menu[..1][..0] == [];
    assert StartsWith(pathname, "/") by {
      assert pathname[..1] == "/";
    }
    assert SelectedKeys(Menu[..1], pathname) == ["/"];
    SelectedKeysPrefix(Menu, 1, pathname);
  }

  /** The selections of a prefix of the menu come first. */
  lemma {:induction false} SelectedKeysPrefix(items: seq<MenuItem>, n: nat, pathname: string)
    requires n <= |items|
    ensures |SelectedKeys(items[..n], pathname)| <= |SelectedKeys(items, pathname)|
    ensures SelectedKeys(items, pathname)[..|SelectedKeys(items[..n], pathname)|] == SelectedKeys(items[..n], pathname)
    decreases |items| - n
  {
    if n < |items| {
      SelectedKeysPrefix(items[..|items| - 1], n, pathname);
      assert items[..|items| - 1][..n] == items[..n];
    } else {
      assert items[..n] == items;
    }
  }

  /** The accumulator loops of `selectedKeys`. */
  method ComputeSelectedKeys(items: seq<MenuItem>, pathname: string) returns (acc: seq<string>)
    ensures acc == SelectedKeys(items, pathname)
  {
    acc := [];
    var i := 0;
    while i < |items|
      invariant 0 <= i <= |items|
      invariant acc == SelectedKeys(items[..i], pathname)
    {
      assert items[..i + 1][..i] == items[..i];
      var item := items[i];
      if item.path.Some? && item.path.value != "" && StartsWith(pathname, item.path.value) {
        acc := acc + [item.path.value];
      }
      if item.children.Some? {
        acc := AppendChildSelections(acc, item.children.value, pathname);
      }
      i := i + 1;
    }
    assert items[..i] == items;
  }

  /** The inner `forEach` over an entry's children. */
  method AppendChildSelections(before: seq<string>, children: seq<MenuItem>, pathname: string) returns (acc: seq<string>)
    ensures acc == before + ChildSelections(children, pathname)
  {
    acc := before;
    var j := 0;
    while j < |children|
      invariant 0 <= j <= |children|
      invariant acc == before + ChildSelections(children[..j], pathname)
    {
      assert children[..j + 1][..j] == children[..j];
      if children[j].path.Some? && children[j].path.value != "" && StartsWith(pathname, children[j].path.value) {
        acc := acc + [children[j].path.value];
      }
      j := j + 1;
    }
    assert children[..j] == children;
  }

  // ---------------------------------------------------------------
  // Open keys
  // ---------------------------------------------------------------

  /** Some child of the entry has a path that prefixes the pathname. */
  predicate HasMatchingChild(item: MenuItem, pathname: string)
  {
    item.children.Some? && exists j :: 0 <= j < |item.children.value| && Matches(item.children.value[j].path, pathname)
  }

  /** `openKeys`: the keys of the entries with a matching child, in menu order. */
  function OpenKeys(items: seq<MenuItem>, pathname: string): seq<string>
    decreases |items|
  {
    if |items| == 0 then []
    else
      var last := items[|items| - 1];
      OpenKeys(items[..|items| - 1], pathname) + (if HasMatchingChild(last, pathname) then [last.key] else [])
  }

  lemma {:induction false} OpenKeysMembers(items: seq<MenuItem>, pathname: string)
    ensures forall k :: k in OpenKeys(items, pathname) <==>
      exists i :: 0 <= i < |items| && items[i].key == k && HasMatchingChild(items[i], pathname)
    ensures |OpenKeys(items, pathname)| <= |items|
    decreases |items|
  {
    if |items| > 0 {
      var init := items[..|items| - 1];
      OpenKeysMembers(init, pathname);
      assert forall i :: 0 <= i < |init| ==> init[i] == items[i];
    }
  }

  // ---------------------------------------------------------------
  // Breadcrumbs
  // ---------------------------------------------------------------

  datatype Crumb = HomeCrumb | LinkCrumb(path: string, caption: string) | TextCrumb(text: string)

  /** `parts.filter(p => p)`. */
  function NonEmpty(parts: seq<string>): (r: seq<string>)
    ensures forall k :: 0 <= k < |r| ==> r[k] != "" && r[k] in parts
    ensures |r| <= |parts|
    decreases |parts|
  {
    if |parts| == 0 then []
    else NonEmpty(parts[..|parts| - 1]) + (if parts[|parts| - 1] != "" then [parts[|parts| - 1]] else [])
  }

  /** The non-empty `/`-segments of a pathname. */
  function Segments(pathname: string): (r: seq<string>)
    ensures forall k :: 0 <= k < |r| ==> r[k] != "" && '/' !in r[k]
  {
    NonEmpty(Split(pathname, '/'))
  }

  /** `currentPath` after the given segments: `/seg0/.../segk`. */
  function CurrentPath(segments: seq<string>): string
    decreases |segments|
  {
    if |segments| == 0 then "" else CurrentPath(segments[..|segments| - 1]) + "/" + segments[|segments| - 1]
  }

  /** `menuItems.flatMap(item => item.children || [item])`. */
  function FlatItems(items: seq<MenuItem>): seq<MenuItem>
    decreases |items|
  {
    if |items| == 0 then []
    else
      var last := items[|items| - 1];
      FlatItems(items[..|items| - 1]) + (if last.children.Some? then last.children.value else [last])
  }

  /** The first entry whose path is exactly `path`. */
  function FindByPath(items: seq<MenuItem>, path: string): (r: Option<nat>)
    ensures r.Some? ==> r.value < |items| && items[r.value].path == Some(path)
    ensures r.Some? ==> forall j :: 0 <= j < r.value ==> items[j].path != Some(path)
    ensures r.None? ==> forall j :: 0 <= j < |items| ==> items[j].path != Some(path)
  {
    if |items| == 0 then None
    else if items[0].path == Some(path) then Some(0)
    else match FindByPath(items[1..], path)
      case Some(j) => Some(j + 1)
      case None => None
  }

  /** The crumb of one segment: the found entry's link, else the raw segment. */
  function CrumbFor(items: seq<MenuItem>, currentPath: string, part: string): Crumb
  {
    var flat := FlatItems(items);
    match FindByPath(flat, currentPath)
    case Some(j) => LinkCrumb(currentPath, flat[j].caption)
    case None => TextCrumb(part)
  }

  function CrumbsOf(items: seq<MenuItem>, segments: seq<string>): seq<Crumb>
    decreases |segments|
  {
    if |segments| == 0 then []
    else CrumbsOf(items, segments[..|segments| - 1]) + [CrumbFor(items, CurrentPath(segments), segments[|segments| - 1])]
  }

  /** The home crumb, then for any pathname but `/` one crumb per segment. */
  function Breadcrumbs(items: seq<MenuItem>, pathname: string): seq<Crumb>
  {
    [HomeCrumb] + if pathname != "/" then CrumbsOf(items, Segments(pathname)) else []
  }

  lemma {:induction false} CrumbsOfIndex(items: seq<MenuItem>, segments: seq<string>)
    ensures |CrumbsOf(items, segments)| == |segments|
    ensures forall k :: 0 <= k < |segments| ==>
      CrumbsOf(items, segments)[k] == CrumbFor(items, CurrentPath(segments[..k + 1]), segments[k])
    decreases |segments|
  {
    if |segments| > 0 {
      var init := segments[..|segments| - 1];
      CrumbsOfIndex(items, init);
      forall k | 0 <= k < |segments|
        ensures CrumbsOf(items, segments)[k] == CrumbFor(items, CurrentPath(segments[..k + 1]), segments[k])
      {
        if k < |init| {
          assert init[..k + 1] == segments[..k + 1];
        } else {
          assert segments[..k + 1] == segments;
        }
      }
    }
  }

  /**
   * The trail starts at home; a pathname other than `/` adds exactly one
   * crumb per segment, and crumb k + 1 links the entry whose path is
   * `/seg0/.../segk` when there is one and shows segment k otherwise.
   */
  lemma BreadcrumbsShape(items: seq<MenuItem>, pathname: string)
    ensures Breadcrumbs(items, pathname)[0] == HomeCrumb
    ensures pathname == "/" ==> Breadcrumbs(items, pathname) == [HomeCrumb]
    ensures pathname != "/" ==> |Breadcrumbs(items, pathname)| == 1 + |Segments(pathname)|
    ensures pathname != "/" ==> forall k :: 0 <= k < |Segments(pathname)| ==>
      Breadcrumbs(items, pathname)[k + 1] == CrumbFor(items, CurrentPath(Segments(pathname)[..k + 1]), Segments(pathname)[k])
  {
    if pathname != "/" {
      var segs := Segments(pathname);
      TrailIndex(items, segs);
    }
  }

  lemma TrailIndex(items: seq<MenuItem>, segs: seq<string>)
    ensures |[HomeCrumb] + CrumbsOf(items, segs)| == 1 + |segs|
    ensures forall k :: 0 <= k < |segs| ==>
      ([HomeCrumb] + CrumbsOf(items, segs))[k + 1] == CrumbFor(items, CurrentPath(segs[..k + 1]), segs[k])
  {
    CrumbsOfIndex(items, segs);
    var trail := [HomeCrumb] + CrumbsOf(items, segs);
    forall k | 0 <= k < |segs|
      ensures trail[k + 1] == CrumbFor(items, CurrentPath(segs[..k + 1]), segs[k])
    {
      assert trail[k + 1] == CrumbsOf(items, segs)[k];
    }
  }

  /** A crumb links an entry of the flattened menu with exactly its path, and falls back to the segment only when there is none. */
  lemma CrumbForFacts(items: seq<MenuItem>, currentPath: string, part: string)
    ensures CrumbFor(items, currentPath, part).LinkCrumb? ==>
      CrumbFor(items, currentPath, part).path == currentPath
      && exists j :: (0 <= j < |FlatItems(items)| && FlatItems(items)[j].path == Some(currentPath)
        && FlatItems(items)[j].caption == CrumbFor(items, currentPath, part).caption)
    ensures CrumbFor(items, currentPath, part).TextCrumb? <==>
      forall j :: 0 <= j < |FlatItems(items)| ==> FlatItems(items)[j].path != Some(currentPath)
    ensures CrumbFor(items, currentPath, part).TextCrumb? ==> CrumbFor(items, currentPath, part).text == part
  {
  }

  /** The breadcrumb loop, extending `currentPath` one segment at a time. */
  method ComputeBreadcrumbs(items: seq<MenuItem>, pathname: string) returns (crumbs: seq<Crumb>)
    ensures crumbs == Breadcrumbs(items, pathname)
  {
    crumbs := [HomeCrumb];
    if pathname != "/" {
      var parts := Segments(pathname);
      var flat := FlatItems(items);
      var currentPath := "";
      var i := 0;
      while i < |parts|
        invariant 0 <= i <= |parts|
        invariant currentPath == CurrentPath(parts[..i])
        invariant crumbs == [HomeCrumb] + CrumbsOf(items, parts[..i])
      {
        assert parts[..i + 1][..i] == parts[..i];
        currentPath := currentPath + "/" + parts[i];
        var found := FindByPath(flat, currentPath);
        if found.Some? {
          crumbs := crumbs + [LinkCrumb(currentPath, flat[found.value].caption)];
        } else {
          crumbs := crumbs + [TextCrumb(parts[i])];
        }
        i := i + 1;
      }
      assert parts[..i] == parts;
    }
  }
}
