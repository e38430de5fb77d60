/** The owner console's farm selector: which farm the URL names, which farm is shown, and
    the navigation list built for it. Only the pure derivations are modelled. */
module OwnerLayout {
  import opened Common
  import opened Seqs

  /** The literal part of the pattern `/\/owner\/farms\/([^/]+)/`. */
  const FarmsPrefix: string := "/owner/farms/"

  /** The pattern matches at position `i`: the literal, then at least one non-`/` character. */
  predicate MatchesAt(path: string, i: nat) {
    && i + |FarmsPrefix| < |path|
    && path[i..i + |FarmsPrefix|] == FarmsPrefix
    && path[i + |FarmsPrefix|] != '/'
  }

  /** The greedy group `[^/]+` read from the start of `s`: its longest `/`-free prefix. */
  function Segment(s: string): (r: string)
    ensures |r| <= |s| && r == s[..|r|]
    ensures '/' !in r
    ensures |r| == |s| || s[|r|] == '/'
    decreases |s|
  {
    if |s| == 0 || s[0] == '/' then ""
    else
      var rest := Segment(s[1..]);
      assert [s[0]] + rest == s[..|rest| + 1];
      [s[0]] + rest
  }

  /** The leftmost position at or after `i` where the pattern matches. */
  function FirstMatch(path: string, i: nat): (r: Option<nat>)
    ensures r.Some? ==> i <= r.value && MatchesAt(path, r.value)
    ensures r.Some? ==> forall j :: i <= j < r.value ==> !MatchesAt(path, j)
    ensures r.None? <==> forall j :: i <= j ==> !MatchesAt(path, j)
    decreases |path| - i
  {
    if i + |FarmsPrefix| >= |path| then None
    else if MatchesAt(path, i) then Some(i)
    else FirstMatch(path, i + 1)
  }

  /** `pathname.match(/\/owner\/farms\/([^/]+)/)?.[1]`: the captured farm id, if any. */
  function FarmIdFromPath(path: string): (r: Option<string>)
    ensures r.None? <==> forall j: nat :: !MatchesAt(path, j)
    ensures r.Some? ==> r.value != "" && '/' !in r.value
    ensures r.Some? ==> exists j: nat ::
      && MatchesAt(path, j)
      && (forall j': nat :: j' < j ==> !MatchesAt(path, j'))
      && j + |FarmsPrefix| + |r.value| <= |path|
      && path[j + |FarmsPrefix|..j + |FarmsPrefix| + |r.value|] == r.value
      && (j + |FarmsPrefix| + |r.value| == |path| || path[j + |FarmsPrefix| + |r.value|] == '/')
  {
    match FirstMatch(path, 0)
    case None => None
    case Some(j) =>
      var tail := path[j + |FarmsPrefix|..];
      var id := Segment(tail);
      assert tail[0] != '/';
      assert path[j + |FarmsPrefix|..j + |FarmsPrefix| + |id|] == tail[..|id|];
      Some(id)
  }

  /** The group reads a `/`-free id up to the next `/` or the end. */
  lemma SegmentOf(id: string, rest: string)
    requires '/' !in id
    requires rest == [] || rest[0] == '/'
    ensures Segment(id + rest) == id
  {
    var s := id + rest;
    var r := Segment(s);
    assert r == s[..|id|] == id;
  }

  /** A path that starts with the prefix and a `/`-free id names that farm. */
  lemma FarmIdRoundTrip(id: string, rest: string)
    requires id != "" && '/' !in id
    requires rest == [] || rest[0] == '/'
    ensures FarmIdFromPath(FarmsPrefix + id + rest) == Some(id)
  {
    var path := FarmsPrefix + id + rest;
    assert path[..|FarmsPrefix|] == FarmsPrefix;
    assert path[|FarmsPrefix|] == id[0];
    assert id[0] in id;
    assert MatchesAt(path, 0);
    assert path[|FarmsPrefix|..] == id + rest;
    SegmentOf(id, rest);
  }

  /** A farm as the farms list returns it to the layout (`_id`, `name`, `location`). */
  datatype ListedFarm = ListedFarm(id: string, name: string, location: Option<string>)

  /** `farmIdFromUrl`: the id the URL names, else the first farm's id, else `null`. */
  function FarmIdFromUrl(path: string, farms: seq<ListedFarm>): (r: Option<string>)
    ensures FarmIdFromPath(path).Some? ==> r == FarmIdFromPath(path)
    ensures FarmIdFromPath(path).None? && |farms| > 0 ==> r == Some(farms[0].id)
    ensures FarmIdFromPath(path).None? && |farms| == 0 ==> r == None
  {
    match FarmIdFromPath(path)
    case Some(id) => Some(id)
    case None => if |farms| > 0 then Some(farms[0].id) else None
  }

  /** The effect that keeps `currentFarmId` in step: it takes the URL's id whenever that
      is truthy and otherwise keeps its previous value. */
  function SyncCurrentFarmId(current: Option<string>, fromUrl: Option<string>): (r: Option<string>)
    ensures Truthy(fromUrl) ==> r == fromUrl
    ensures !Truthy(fromUrl) ==> r == current
  {
    if Truthy(fromUrl) then fromUrl else current
  }

  function ListedId(f: ListedFarm): Option<string> { Some(f.id) }

  /** `currentFarm`: the first farm whose id is the current id, otherwise the first farm,
      otherwise nothing (`undefined`). */
  function CurrentFarm(farms: seq<ListedFarm>, currentId: Option<string>): (r: Option<ListedFarm>)
    ensures r.Some? <==> |farms| > 0
    ensures forall k :: (
      && 0 <= k < |farms| && Some(farms[k].id) == currentId
      && (forall j :: 0 <= j < k ==> Some(farms[j].id) != currentId)
      ==> r == Some(farms[k]))
    ensures (forall k :: 0 <= k < |farms| ==> Some(farms[k].id) != currentId) && |farms| > 0 ==>
      r == Some(farms[0])
  {
    match IndexOf(farms, ListedId, currentId)
    case Some(k) => Some(farms[k])
    case None => if |farms| > 0 then Some(farms[0]) else None
  }

  /** One entry of the navigation list. */
  datatype NavItem = NavItem(href: string, caption: string)

  /** Path suffixes and labels of the nine sections, in display order. */
  const Sections: seq<string> := ["", "/zones", "/trees", "/workers", "/tasks", "/alerts", "/robot", "/reports", "/settings"]
  const Labels: seq<string> := ["Overview", "Zones", "Trees", "Workers", "Tasks", "Alerts", "Robot", "Reports", "Settings"]

  /** `nav`: nothing without a (truthy) current id, otherwise the nine sections of that farm. */
  function Nav(current: Option<string>): (r: seq<NavItem>)
    ensures !Truthy(current) ==> r == []
    ensures Truthy(current) ==> |r| == 9
    ensures Truthy(current) ==> forall k :: 0 <= k < |r| ==>
      r[k].caption == Labels[k] && r[k].href == FarmsPrefix + current.value + Sections[k]
  {
    if Truthy(current) then
      seq(9, k requires 0 <= k < 9 => NavItem(FarmsPrefix + current.value + Sections[k], Labels[k]))
    else []
  }

  /** An entry is highlighted when the pathname is exactly its href. */
  predicate IsActive(pathname: string, item: NavItem) {
    pathname == item.href
  }

  /** `onFarmChange`: select the farm and navigate to its overview. Returns the new current
      id and the pushed path. */
  function OnFarmChange(id: string): (r: (Option<string>, string))
    ensures r.0 == Some(id)
    ensures r.1 == FarmsPrefix + id
  {
    (Some(id), FarmsPrefix + id)
  }

  /** The overview path pushed for a farm (whose id never contains `/`) names that farm
      again, so the selector and the URL agree after the navigation. */
  lemma OnFarmChangeNamesFarm(id: string)
    requires id != "" && '/' !in id
    ensures FarmIdFromPath(OnFarmChange(id).1) == Some(id)
    ensures FarmIdFromUrl(OnFarmChange(id).1, []) == OnFarmChange(id).0
  {
    FarmIdRoundTrip(id, "");
    assert FarmsPrefix + id + "" == FarmsPrefix + id;
  }

  /** The nine suffixes are pairwise different. */
  lemma SectionsDistinct(a: nat, b: nat)
    requires a < b < 9
    ensures Sections[a] != Sections[b]
  {
    if |Sections[a]| == |Sections[b]| {
      assert Sections[a][1] != Sections[b][1] || Sections[a][2] != Sections[b][2];
    }
  }

  /** The hrefs of the navigation list are pairwise different. */
  lemma NavHrefsDistinct(current: Option<string>, a: nat, b: nat)
    requires a < b < |Nav(current)|
    ensures Nav(current)[a].href != Nav(current)[b].href
  {
    var p := FarmsPrefix + current.value;
    var ha, hb := Nav(current)[a].href, Nav(current)[b].href;
    assert ha == p + Sections[a] && hb == p + Sections[b];
    SectionsDistinct(a, b);
    assert ha[|p|..] == Sections[a];
    assert hb[|p|..] == Sections[b];
  }

  /** On any page of a farm's console, exactly the entry for that page is highlighted and
      it belongs to the farm the URL names. */
  lemma ActiveEntryOfOwnPage(id: string, k: nat, current: Option<string>, farms: seq<ListedFarm>)
    requires id != "" && '/' !in id
    requires k < 9
    ensures var path := FarmsPrefix + id + Sections[k];
      var nav := Nav(SyncCurrentFarmId(current, FarmIdFromUrl(path, farms)));
      && |nav| == 9
      && IsActive(path, nav[k])
      && (forall j :: 0 <= j < 9 && j != k ==> !IsActive(path, nav[j]))
  {
    var path := FarmsPrefix + id + Sections[k];
    FarmIdRoundTrip(id, Sections[k]);
    var nav := Nav(Some(id));
    forall j | 0 <= j < 9 && j != k
      ensures !IsActive(path, nav[j])
    {
      if j < k { NavHrefsDistinct(Some(id), j, k); } else { NavHrefsDistinct(Some(id), k, j); }
    }
  }
}
