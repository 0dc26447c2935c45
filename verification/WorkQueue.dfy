/** Which elements of the work queue are given to the sites that ask: the list
    `workRestrictions.js`, and the site computations of `workqueue_utils.js`. */
module WorkQueue {
  import opened Common

  type Site = string

  /** For each block or dataset, the sites that hold it. */
  type Locations = map<string, seq<Site>>

  datatype Element = Element(
    teamName: string,
    requestName: string,
    siteBlacklist: seq<Site>,
    siteWhitelist: seq<Site>,
    noInputUpdate: bool,
    noPileupUpdate: bool,
    parentFlag: bool,
    inputs: Locations,
    parentData: Locations,
    pileupData: Locations)

  /** A row of the view; the document is missing if it was deleted meanwhile. */
  datatype Row = Row(id: string, doc: Option<Element>)

  datatype Query = Query(resources: set<Site>, numElem: int, team: string, wfs: seq<string>)

  // ----- what the list promises -----

  predicate AllAt(data: Locations, site: Site) {
    forall d | d in data :: site in data[d]
  }

  /** The element can run at the site: allowed there, and all the data it insists on is there. */
  predicate Runnable(e: Element, site: Site) {
    && site !in e.siteBlacklist && site in e.siteWhitelist
    && (!e.noInputUpdate ==> AllAt(e.inputs, site))
    && (!e.noPileupUpdate ==> AllAt(e.pileupData, site))
    && (!e.noInputUpdate && e.parentFlag ==> AllAt(e.parentData, site))
  }

  predicate Requested(q: Query, e: Element) {
    && (q.team != "" && e.teamName != "" ==> q.team == e.teamName)
    && (q.wfs != [] ==> e.requestName in q.wfs)
  }

  ghost predicate Passes(q: Query, row: Row) {
    row.doc.Some? && Requested(q, row.doc.value) && exists site :: site in q.resources && Runnable(row.doc.value, site)
  }

  /** The rows that pass, in order. */
  ghost function Passing(q: Query, rows: seq<Row>): seq<Row>
    decreases |rows|
  {
    if rows == [] then []
    else (if Passes(q, rows[0]) then [rows[0]] else []) + Passing(q, rows[1..])
  }

  function Take<T>(s: seq<T>, n: int): (r: seq<T>)
    ensures r <= s && |r| == if n <= 0 then 0 else if n <= |s| then n else |s|
  {
    if n <= 0 then [] else if n <= |s| then s[..n] else s
  }

  datatype Piece = OpenBracket | Comma | Document(row: Row) | CloseBracket

  /** The documents as the elements of a JSON list. */
  function ListText(rows: seq<Row>): seq<Piece>
    decreases |rows|
  {
    if rows == [] then []
    else if |rows| == 1 then [Document(rows[0])]
    else [Document(rows[0]), Comma] + ListText(rows[1..])
  }

  lemma {:induction false} ListTextSnoc(rows: seq<Row>, row: Row)
    ensures ListText(rows + [row]) == ListText(rows) + (if rows == [] then [] else [Comma]) + [Document(row)]
    decreases |rows|
  {
    if rows == [] {
      assert rows + [row] == [row];
    } else {
      assert (rows + [row])[1..] == rows[1..] + [row];
      ListTextSnoc(rows[1..], row);
      if |rows| == 1 {
        assert rows[1..] == [];
      }
    }
  }

  // ----- the loops -----

  /** The loop over the data items, left at the first one that the site lacks. */
  method Lacks(data: Locations, site: Site) returns (lacks: bool)
    ensures lacks <==> !AllAt(data, site)
  {
    lacks := false;
    var todo := data.Keys;
    while todo != {}
      invariant todo <= data.Keys && !lacks && forall d | d in data && d !in todo :: site in data[d]
      decreases todo
    {
      var block :| block in todo;
      todo := todo - {block};
      if site !in data[block] {
        lacks := true;
        break;
      }
    }
  }

  /** The body of the loop over the sites, up to sending the document. */
  method RunsAt(ele: Element, site: Site) returns (runs: bool)
    ensures runs <==> Runnable(ele, site)
  {
    if site in ele.siteBlacklist {
      return false;
    }
    if site !in ele.siteWhitelist {
      return false;
    }
    var noInputSite := false;
    if !ele.noInputUpdate {
      noInputSite := Lacks(ele.inputs, site);
    }
    if noInputSite {
      return false;
    }
    var noPileupSite := false;
    if !ele.noPileupUpdate {
      noPileupSite := Lacks(ele.pileupData, site);
    }
    if noPileupSite {
      return false;
    }
    var noParentSite := false;
    if ele.noInputUpdate {
      noParentSite := false;
    } else if ele.parentFlag {
      noParentSite := Lacks(ele.parentData, site);
    }
    runs := !noParentSite;
  }

  /** The loop over the sites, in whatever order, left at the first one that will do. */
  method RunsSomewhere(ele: Element, resources: set<Site>) returns (found: bool)
    ensures found <==> exists site :: site in resources && Runnable(ele, site)
  {
    found := false;
    var todo := resources;
    while todo != {}
      invariant todo <= resources && !found && forall site | site in resources && site !in todo :: !Runnable(ele, site)
      decreases todo
    {
      var site :| site in todo;
      todo := todo - {site};
      found := RunsAt(ele, site);
      if found {
        break;
      }
    }
  }

  lemma {:induction false} PassingSplits(q: Query, rows: seq<Row>, i: nat)
    requires i < |rows|
    ensures Passing(q, rows[..i + 1]) == Passing(q, rows[..i]) + if Passes(q, rows[i]) then [rows[i]] else []
    decreases |rows|
  {
    if i == 0 {
      assert rows[..1] == [rows[0]] && rows[..0] == [] && rows[..1][1..] == [];
    } else {
      PassingSplits(q, rows[1..], i - 1);
      assert rows[..i + 1][1..] == rows[1..][..i] && rows[..i][1..] == rows[1..][..i - 1];
    }
  }

  lemma {:induction false} PassingGrows(q: Query, rows: seq<Row>, i: nat)
    requires i <= |rows|
    ensures Passing(q, rows[..i]) <= Passing(q, rows)
    decreases |rows| - i
  {
    if i == |rows| {
      assert rows[..i] == rows;
    } else {
      PassingSplits(q, rows, i);
      PassingGrows(q, rows, i + 1);
    }
  }

  /** The list: exactly the first `numElem` rows that pass, in the order of the rows, as one
      JSON list, whatever the order in which the sites are tried. */
  method WorkRestrictions(q: Query, rows: seq<Row>) returns (text: seq<Piece>)
    ensures text == [OpenBracket] + ListText(Take(Passing(q, rows), q.numElem)) + [CloseBracket]
  {
    text := [OpenBracket];
    ghost var sent: seq<Row> := [];
    var first, num_elem := true, q.numElem;
    var i := 0;
    while i < |rows|
      invariant 0 <= i <= |rows|
      invariant num_elem == q.numElem - |sent| && (num_elem >= 0 || sent == []) && (first <==> sent == [])
      invariant sent == Passing(q, rows[..i])
      invariant text == [OpenBracket] + ListText(sent)
    {
      var row := rows[i];
      if q.resources == {} {
        NobodyAsks(q, rows);
        break;
      }
      if num_elem <= 0 {
        break;
      }
      PassingSplits(q, rows, i);
      i := i + 1;
      if row.doc.None? {
        continue;
      }
      var ele := row.doc.value;
      if q.team != "" && ele.teamName != "" && q.team != ele.teamName {
        continue;
      }
      if |q.wfs| > 0 && ele.requestName !in q.wfs {
        continue;
      }
      var found := RunsSomewhere(ele, q.resources);
      if found {
        ListTextSnoc(sent, row);
        if !first {
          text := text + [Comma];
        }
        text := text + [Document(row)];
        sent := sent + [row];
        first := false;
        num_elem := num_elem - 1;
      }
    }
    PassingGrows(q, rows, i);
    assert i == |rows| ==> rows[..i] == rows;
    assert sent == Take(Passing(q, rows), q.numElem);
    text := text + [CloseBracket];
  }

  lemma {:induction false} NobodyAsks(q: Query, rows: seq<Row>)
    requires q.resources == {}
    ensures Passing(q, rows) == []
    decreases |rows|
  {
    if rows != [] { NobodyAsks(q, rows[1..]); }
  }

  // ----- what the list means -----

  lemma {:induction false} ListLength(rows: seq<Row>)
    ensures |ListText(rows)| == if rows == [] then 0 else 2 * |rows| - 1
    decreases |rows|
  {
    if |rows| > 1 { ListLength(rows[1..]); }
  }

  /** The list reads as one of JSON: the documents in turn, and a comma between any two. */
  lemma {:induction false} ListReads(rows: seq<Row>, i: nat)
    requires i < |rows|
    ensures |ListText(rows)| == 2 * |rows| - 1 && ListText(rows)[2 * i] == Document(rows[i])
    ensures i < |rows| - 1 ==> ListText(rows)[2 * i + 1] == Comma
    decreases |rows|
  {
    ListLength(rows);
    if |rows| > 1 && i > 0 {
      var rest := ListText(rows[1..]);
      ListReads(rows[1..], i - 1);
      ListTextTail(rows, 2 * i);
      assert rest[2 * (i - 1)] == Document(rows[1..][i - 1]);
      if i < |rows| - 1 { ListTextTail(rows, 2 * i + 1); }
    }
  }

  lemma ListTextTail(rows: seq<Row>, k: nat)
    requires |rows| > 1 && 2 <= k < |ListText(rows)|
    ensures |ListText(rows)| == |ListText(rows[1..])| + 2 && ListText(rows)[k] == ListText(rows[1..])[k - 2]
  {
  }

  /** The rows that pass are picked one by one, in order. */
  lemma {:induction false} PassingConcat(q: Query, a: seq<Row>, b: seq<Row>)
    ensures Passing(q, a + b) == Passing(q, a) + Passing(q, b)
    decreases |a|
  {
    if a == [] {
      assert a + b == b;
    } else {
      assert (a + b)[1..] == a[1..] + b;
      PassingConcat(q, a[1..], b);
    }
  }

  lemma {:induction false} PassingHolds(q: Query, rows: seq<Row>, row: Row)
    ensures row in Passing(q, rows) <==> row in rows && Passes(q, row)
    decreases |rows|
  {
    if rows != [] {
      PassingHolds(q, rows[1..], row);
      assert row in rows <==> row == rows[0] || row in rows[1..];
    }
  }

  /** No site that asks is allowed: each is on the blacklist or not on the whitelist. */
  predicate NobodyAllowed(q: Query, e: Element) {
    forall site | site in q.resources :: site in e.siteBlacklist || site !in e.siteWhitelist
  }

  /** Some item that must be at hand is at none of the sites that ask. */
  ghost predicate Elsewhere(q: Query, data: Locations) {
    exists d :: d in data && forall site | site in q.resources :: site !in data[d]
  }

  /** What keeps an element from ever being sent: nobody may run it, it belongs to another team, it
      is of no workflow asked for, or data it insists on is elsewhere. */
  lemma NeverSent(q: Query, rows: seq<Row>, id: string, e: Element)
    requires || NobodyAllowed(q, e)
             || (q.team != "" && e.teamName != "" && q.team != e.teamName)
             || (q.wfs != [] && e.requestName !in q.wfs)
             || (!e.noInputUpdate && Elsewhere(q, e.inputs))
             || (!e.noPileupUpdate && Elsewhere(q, e.pileupData))
             || (!e.noInputUpdate && e.parentFlag && Elsewhere(q, e.parentData))
    ensures Row(id, Some(e)) !in Passing(q, rows)
  {
    PassingHolds(q, rows, Row(id, Some(e)));
  }

  lemma DeletedNeverSent(q: Query, rows: seq<Row>, id: string)
    ensures Row(id, None) !in Passing(q, rows)
  {
    PassingHolds(q, rows, Row(id, None));
  }

  /** What makes an element pass: one of the sites that ask is allowed and has all the data, and
      neither the team nor the workflows speak against it. Data that is trusted to be there need
      not be, and parents matter only where the flag says so. */
  lemma AlwaysPasses(q: Query, rows: seq<Row>, id: string, e: Element, site: Site)
    requires Row(id, Some(e)) in rows
    requires site in q.resources && site !in e.siteBlacklist && site in e.siteWhitelist
    requires e.noInputUpdate || forall d | d in e.inputs :: site in e.inputs[d]
    requires e.noPileupUpdate || forall d | d in e.pileupData :: site in e.pileupData[d]
    requires e.noInputUpdate || !e.parentFlag || forall d | d in e.parentData :: site in e.parentData[d]
    requires q.team == "" || e.teamName == "" || q.team == e.teamName
    requires q.wfs == [] || e.requestName in q.wfs
    ensures Row(id, Some(e)) in Passing(q, rows)
    ensures q.numElem >= |rows| ==> Row(id, Some(e)) in Take(Passing(q, rows), q.numElem)
  {
    assert Runnable(e, site);
    PassingHolds(q, rows, Row(id, Some(e)));
    PassingIsShorter(q, rows);
  }

  lemma {:induction false} PassingIsShorter(q: Query, rows: seq<Row>)
    ensures |Passing(q, rows)| <= |rows|
    decreases |rows|
  {
    if rows != [] { PassingIsShorter(q, rows[1..]); }
  }

  // ----- workqueue_utils.js -----

  /** Every data item is at some site of the whitelist. */
  predicate EachSomewhere(data: Locations, whitelist: seq<Site>) {
    forall d | d in data :: exists i :: 0 <= i < |data[d]| && data[d][i] in whitelist
  }

  /** `commonSites`: the whole whitelist, or nothing. */
  method CommonSites(whitelist: seq<Site>, data: Locations) returns (sites: seq<Site>)
    ensures sites == if EachSomewhere(data, whitelist) then whitelist else []
  {
    var todo := data.Keys;
    while todo != {}
      invariant todo <= data.Keys
      invariant forall d | d in data && d !in todo :: exists i :: 0 <= i < |data[d]| && data[d][i] in whitelist
      decreases todo
    {
      var d :| d in todo;
      todo := todo - {d};
      var common_sites: seq<Site> := [];
      if |data[d]| == 0 {
        return common_sites;
      }
      var locations := data[d];
      for i := 0 to |locations|
        invariant common_sites == [] && forall j | 0 <= j < i :: locations[j] !in whitelist
      {
        if locations[i] in whitelist {
          common_sites := common_sites + [locations[i]];
          break;
        }
      }
      if |common_sites| == 0 {
        return common_sites;
      }
    }
    sites := whitelist;
  }

  method CommonInputDataSites(e: Element) returns (sites: seq<Site>)
    ensures sites == InputSites(e)
  {
    if e.noInputUpdate {
      return e.siteWhitelist;
    }
    sites := CommonSites(e.siteWhitelist, e.inputs);
  }

  method CommonInputParentDataSites(e: Element) returns (sites: seq<Site>)
    ensures sites == ParentSites(e)
  {
    if e.noInputUpdate {
      return e.siteWhitelist;
    }
    sites := CommonSites(e.siteWhitelist, e.parentData);
  }

  method CommonPileupDataSites(e: Element) returns (sites: seq<Site>)
    ensures sites == PileupSites(e)
  {
    if e.noPileupUpdate {
      return e.siteWhitelist;
    }
    sites := CommonSites(e.siteWhitelist, e.pileupData);
  }

  /** The sites returned for data whose locations may be trusted or not. */
  function SitesOf(trusted: bool, data: Locations, whitelist: seq<Site>): seq<Site> {
    if trusted || EachSomewhere(data, whitelist) then whitelist else []
  }

  function InputSites(e: Element): seq<Site> {
    SitesOf(e.noInputUpdate, e.inputs, e.siteWhitelist)
  }

  function ParentSites(e: Element): seq<Site> {
    SitesOf(e.noInputUpdate, e.parentData, e.siteWhitelist)
  }

  function PileupSites(e: Element): seq<Site> {
    SitesOf(e.noPileupUpdate, e.pileupData, e.siteWhitelist)
  }

  lemma NowhereCommon(data: Locations, whitelist: seq<Site>, site: Site)
    requires AllAt(data, site) && site in whitelist
    ensures EachSomewhere(data, whitelist)
  {
    forall d | d in data ensures exists i :: 0 <= i < |data[d]| && data[d][i] in whitelist {
      assert site in data[d];
    }
  }

  /** An element with no common site for its inputs, its pileup, or the parents it insists on
      is never given to anybody, whatever sites ask. */
  lemma {:induction false} NoCommonSiteNeverSent(e: Element, q: Query, rows: seq<Row>, id: string)
    requires InputSites(e) == [] || PileupSites(e) == [] || (e.parentFlag && ParentSites(e) == [])
    ensures Row(id, Some(e)) !in Passing(q, rows)
    decreases |rows|
  {
    forall site ensures !Runnable(e, site) {
      if Runnable(e, site) {
        assert site in e.siteWhitelist && e.siteWhitelist != [];
        if !e.noInputUpdate {
          NowhereCommon(e.inputs, e.siteWhitelist, site);
          if e.parentFlag { NowhereCommon(e.parentData, e.siteWhitelist, site); }
        }
        if !e.noPileupUpdate { NowhereCommon(e.pileupData, e.siteWhitelist, site); }
      }
    }
    if rows != [] { NoCommonSiteNeverSent(e, q, rows[1..], id); }
  }

  // ----- when the sites returned are what their comments say: sites that hold all the data -----

  /** Some site of the whitelist holds all the data. */
  ghost predicate HasCommon(data: Locations, whitelist: seq<Site>) {
    exists site :: site in whitelist && AllAt(data, site)
  }

  /** The sites returned hold all the data if and only if there are none because some item is at
      no site of the whitelist, or each item is at all the sites of the whitelist. */
  lemma SitesHoldAllIff(trusted: bool, data: Locations, whitelist: seq<Site>)
    ensures (forall site | site in SitesOf(trusted, data, whitelist) :: AllAt(data, site)) <==>
            || (!trusted && exists d :: d in data && forall i | 0 <= i < |data[d]| :: data[d][i] !in whitelist)
            || (forall d, site | d in data && site in whitelist :: site in data[d])
  {
    var sites := SitesOf(trusted, data, whitelist);
    if !trusted && !EachSomewhere(data, whitelist) {
      var d :| d in data && !exists i :: 0 <= i < |data[d]| && data[d][i] in whitelist;
      assert forall i | 0 <= i < |data[d]| :: data[d][i] !in whitelist;
    } else if forall site | site in sites :: AllAt(data, site) {
      forall d, site | d in data && site in whitelist ensures site in data[d] {
        assert site in sites && AllAt(data, site);
      }
    }
  }

  /** Sites are returned whenever some site of the whitelist holds all the data; if there is no
      more than one item, only then. */
  lemma SomeSites(data: Locations, whitelist: seq<Site>)
    ensures HasCommon(data, whitelist) ==> SitesOf(false, data, whitelist) != []
    ensures |data| <= 1 && SitesOf(false, data, whitelist) != [] ==> HasCommon(data, whitelist)
  {
    if HasCommon(data, whitelist) {
      var site :| site in whitelist && AllAt(data, site);
      NowhereCommon(data, whitelist, site);
    }
    if |data| <= 1 && SitesOf(false, data, whitelist) != [] {
      if data.Keys == {} {
        assert AllAt(data, whitelist[0]);
      } else {
        var d :| d in data;
        assert |data.Keys - {d}| == 0;
        assert data.Keys == {d};
        var i :| 0 <= i < |data[d]| && data[d][i] in whitelist;
        assert AllAt(data, data[d][i]);
      }
    }
  }

  /** For data items with these names, wherever they are and whatever sites are allowed, sites
      are returned exactly when one holds all the data. */
  ghost predicate MeansCommon(names: set<string>) {
    forall data: Locations, whitelist: seq<Site> | data.Keys == names ::
      SitesOf(false, data, whitelist) != [] <==> HasCommon(data, whitelist)
  }

  /** That is so if and only if there is no more than one item: any two can be at different
      sites. */
  lemma MeansCommonIff(names: set<string>)
    ensures MeansCommon(names) <==> |names| <= 1
  {
    if |names| <= 1 {
      forall data: Locations, whitelist: seq<Site> | data.Keys == names
        ensures SitesOf(false, data, whitelist) != [] <==> HasCommon(data, whitelist)
      {
        assert |data| == |data.Keys|;
        SomeSites(data, whitelist);
      }
    } else {
      var d :| d in names;
      assert |names - {d}| == |names| - 1;
      var d' :| d' in names - {d};
      var data: Locations := map x | x in names :: if x == d then ["A"] else ["B"];
      Apart(data, d, d');
      assert data.Keys == names;
    }
  }

  lemma Apart(data: Locations, d: string, d': string)
    requires d in data && data[d] == ["A"] && d' in data && data[d'] == ["B"]
    requires forall x | x in data :: data[x] == ["A"] || data[x] == ["B"]
    ensures SitesOf(false, data, ["A", "B"]) != [] && !HasCommon(data, ["A", "B"])
  {
    var whitelist := ["A", "B"];
    forall x | x in data ensures exists i :: 0 <= i < |data[x]| && data[x][i] in whitelist {
      assert whitelist[0] == "A" && whitelist[1] == "B";
      assert data[x][0] in whitelist;
    }
    forall site ensures !AllAt(data, site) {
      assert site !in data[d] || site !in data[d'];
    }
  }

  /** The sites returned need not hold all the data, as the comments in the source say they
      do: here every block is at an allowed site, and no site has both. */
  lemma CommonSitesAreNotCommon() returns (e: Element)
    ensures InputSites(e) == e.siteWhitelist != [] && forall site :: !AllAt(e.inputs, site)
  {
    e := Element("", "", [], ["A", "B"], false, false, false, map["x" := ["A"], "y" := ["B"]], map[], map[]);
    assert e.inputs["x"][0] in e.siteWhitelist && e.inputs["y"][0] in e.siteWhitelist;
    forall site ensures !AllAt(e.inputs, site) {
      assert "x" in e.inputs && "y" in e.inputs;
    }
  }
}
