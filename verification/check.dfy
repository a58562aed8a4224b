/** The spreadsheet checker behind `CheckMyWork`: every data cell is checked
    against the rules of its column and the report maps a cell address ("B7")
    to the last message written for that cell. Upload ids, checked TGN values
    and the answers of the node-existence check are remembered across the whole
    sheet. */
module Check {
  import opened Wrappers
  import opened GoStrings
  import opened GoStrconv
  import opened CellAddress
  import opened Contributors
  import opened Columns
  import Tgn
  import Transform
  import opened StagingPaths
  import TermResolver

  /** What `url.ParseRequestURI` reports about a URL it accepts. */
  datatype ParsedUrl = ParsedUrl(scheme: string, host: string)

  /** Everything outside the checker it depends on: the site's base URL and the
      staging mount (both from the environment), whether a HEAD request to a URL
      answers 200, the gazetteer, the EDTF parser's verdict, the URL parser,
      whether a file exists and is a world-readable regular file, and the JSON
      decoder's verdict on a Contributor token. */
  datatype CheckEnv = CheckEnv(
    siteUrl: string,
    dataMount: string,
    headOk: string -> bool,
    gazetteer: Tgn.Gazetteer,
    edtfValid: string -> bool,
    parseRequestUri: string -> Option<ParsedUrl>,
    fileExists: string -> bool,
    decodeContributor: string -> Decoded)

  /** The state carried from cell to cell: the upload ids and TGN values seen,
      the URL answers remembered, and the HEAD requests and TGN lookups made,
      in order. */
  datatype Batch = Batch(
    uploadIds: set<string>,
    hierarchyChecked: set<string>,
    urlCache: map<string, bool>,
    headRequests: seq<string>,
    tgnLookups: seq<string>)

  const EmptyBatch := Batch({}, {}, map[], [], [])

  /** The message a token or cell writes, if any, and the state after it. */
  datatype Verdict = Verdict(message: Option<string>, batch: Batch)

  /** The report key and message for a sheet without data rows. */
  const NoRowsKey := NumberToExcelColumn(0)
  const NoRowsMessage := "No rows in CSV to process"

  const RequiredFields := ["Title", "Object Model", "Full Title"]

  const TgnColumn := "Hierarchical Geographic (Getty TGN)"

  /** The relator codes a Contributor may use. */
  const ValidRelators: seq<string> := [
    "relators:att", "relators:abr", "relators:act", "relators:adp", "relators:rcp", "relators:anl",
    "relators:anm", "relators:ann", "relators:apl", "relators:ape", "relators:app", "relators:arc",
    "relators:arr", "relators:acp", "relators:adi", "relators:art", "relators:ard", "relators:asn",
    "relators:asg", "relators:auc", "relators:aut", "relators:aqt", "relators:aft", "relators:aud",
    "relators:aui", "relators:ato", "relators:ant", "relators:bnd", "relators:bdd", "relators:blw",
    "relators:bkd", "relators:bkp", "relators:bjd", "relators:bpd", "relators:bsl", "relators:brl",
    "relators:brd", "relators:cll", "relators:ctg", "relators:cas", "relators:cns", "relators:chr",
    "relators:clb", "relators:cng", "relators:cli", "relators:cor", "relators:col", "relators:clt",
    "relators:clr", "relators:cmm", "relators:cwt", "relators:com", "relators:cpl", "relators:cpt",
    "relators:cpe", "relators:cmp", "relators:cmt", "relators:ccp", "relators:cnd", "relators:con",
    "relators:csl", "relators:csp", "relators:cos", "relators:cot", "relators:coe", "relators:cts",
    "relators:ctt", "relators:cte", "relators:ctr", "relators:ctb", "relators:cpc", "relators:cph",
    "relators:crr", "relators:crp", "relators:cst", "relators:cou", "relators:crt", "relators:cov",
    "relators:cre", "relators:cur", "relators:dnc", "relators:dtc", "relators:dtm", "relators:dte",
    "relators:dto", "relators:dfd", "relators:dft", "relators:dfe", "relators:dgg", "relators:dgs",
    "relators:dln", "relators:dpc", "relators:dpt", "relators:dsr", "relators:drt", "relators:dis",
    "relators:dbp", "relators:dst", "relators:dnr", "relators:drm", "relators:dub", "relators:edt",
    "relators:edc", "relators:edm", "relators:edd", "relators:elg", "relators:elt", "relators:enj",
    "relators:eng", "relators:egr", "relators:etr", "relators:evp", "relators:exp", "relators:fac",
    "relators:fld", "relators:fmd", "relators:fds", "relators:flm", "relators:fmp", "relators:fmk",
    "relators:fpy", "relators:frg", "relators:fmo", "relators:fnd", "relators:gis", "relators:grt",
    "relators:hnr", "relators:hst", "relators:his", "relators:ilu", "relators:ill", "relators:ins",
    "relators:itr", "relators:ive", "relators:ivr", "relators:inv", "relators:isb", "relators:jud",
    "relators:jug", "relators:lbr", "relators:ldr", "relators:lsa", "relators:led", "relators:len",
    "relators:lil", "relators:lit", "relators:lie", "relators:lel", "relators:let", "relators:lee",
    "relators:lbt", "relators:lse", "relators:lso", "relators:lgd", "relators:ltg", "relators:lyr",
    "relators:mfp", "relators:mfr", "relators:mrb", "relators:mrk", "relators:med", "relators:mdc",
    "relators:mte", "relators:mtk", "relators:mod", "relators:mon", "relators:mcp", "relators:msd",
    "relators:mus", "relators:nrt", "relators:osp", "relators:opn", "relators:orm", "relators:org",
    "relators:oth", "relators:own", "relators:pan", "relators:ppm", "relators:pta", "relators:pth",
    "relators:pat", "relators:prf", "relators:pma", "relators:pht", "relators:ptf", "relators:ptt",
    "relators:pte", "relators:plt", "relators:pra", "relators:pre", "relators:prt", "relators:pop",
    "relators:prm", "relators:prc", "relators:pro", "relators:prn", "relators:prs", "relators:pmn",
    "relators:prd", "relators:prp", "relators:prg", "relators:pdr", "relators:pfr", "relators:prv",
    "relators:pup", "relators:pbd", "relators:ppt", "relators:rdd", "relators:rpc", "relators:rce",
    "relators:rcd", "relators:red", "relators:ren", "relators:rpt", "relators:rps", "relators:rth",
    "relators:rtm", "relators:res", "relators:rsp", "relators:rst", "relators:rse", "relators:rpy",
    "relators:rsg", "relators:rsr", "relators:rev", "relators:rbr", "relators:sce", "relators:sad",
    "relators:aus", "relators:scr", "relators:scl", "relators:spy", "relators:sec", "relators:sll",
    "relators:std", "relators:stg", "relators:sgn", "relators:sng", "relators:sds", "relators:spk",
    "relators:spn", "relators:sgd", "relators:stm", "relators:stn", "relators:str", "relators:stl",
    "relators:sht", "relators:srv", "relators:tch", "relators:tcd", "relators:tld", "relators:tlp",
    "relators:ths", "relators:trc", "relators:trl", "relators:tyd", "relators:tyg", "relators:uvp",
    "relators:vdg", "relators:voc", "relators:vac", "relators:wit", "relators:wde", "relators:wdc",
    "relators:wam", "relators:wac", "relators:wal", "relators:wat", "relators:win", "relators:wpr",
    "relators:wst", "label:department"
  ]

  /** The value at `key`, if any. */
  function At(m: map<string, string>, key: string): Option<string> {
    if key in m then Some(m[key]) else None
  }

  // ---------------------------------------------------------------------------
  // Row shape

  /** A row the checker can handle: it is no longer than the header, and every
      column the rules look up is inside it when the header has that column. */
  predicate WellShaped(header: seq<string>, row: seq<string>) {
    && |row| <= |header|
    && CanLookUp("Node ID", header, row)
    && CanLookUp("Object Model", header, row)
    && CanLookUp("Page/Item Parent ID", header, row)
    && CanLookUp("Parent Collection", header, row)
    && CanLookUp("Upload ID", header, row)
  }

  predicate AllWellShaped(header: seq<string>, rows: seq<seq<string>>) {
    forall i :: 0 <= i < |rows| ==> WellShaped(header, rows[i])
  }

  // ---------------------------------------------------------------------------
  // Empty cells

  /** No required field is one of the columns with an empty-cell rule of its own. */
  lemma RequiredFieldsHaveNoOtherRule(column: string)
    ensures column in RequiredFields ==>
      column != "Parent Collection" && column != "Page/Item Parent ID" && column != "Resource Type"
  {
  }

  /** The message for an empty cell: required fields when the row creates a
      node (no Node ID), and the parent and resource-type rules that depend on
      the row's Object Model. Each rule overwrites the one before. */
  function EmptyCellMessage(column: string, header: seq<string>, row: seq<string>): (r: Option<string>)
    requires WellShaped(header, row)
    ensures column in RequiredFields ==> (r.Some? <==> ColumnValue("Node ID", header, row) == "")
    ensures column in RequiredFields && r.Some? ==> r.value == "Missing value"
    ensures column == "Parent Collection" ==>
      (r.Some? <==> ColumnValue("Object Model", header, row) == "Paged Content" && ColumnValue("Page/Item Parent ID", header, row) == "")
    ensures column == "Parent Collection" && r.Some? ==> r.value == "Paged content must have a parent collection or parent ID"
    ensures column == "Page/Item Parent ID" ==>
      (r.Some? <==> ColumnValue("Object Model", header, row) == "Page" && ColumnValue("Parent Collection", header, row) == "")
    ensures column == "Page/Item Parent ID" && r.Some? ==> r.value == "Pages must have a parent id or parent collection"
    ensures column == "Resource Type" ==> (r.Some? <==> ColumnValue("Object Model", header, row) != "Page")
    ensures column == "Resource Type" && r.Some? ==> r.value == "Must have a resource type"
    ensures (&& column !in RequiredFields && column != "Parent Collection" && column != "Page/Item Parent ID"
             && column != "Resource Type") ==> r.None?
  {
    RequiredFieldsHaveNoOtherRule(column);
    var model := ColumnValue("Object Model", header, row);
    var nodeId := ColumnValue("Node ID", header, row);
    var parentId := ColumnValue("Page/Item Parent ID", header, row);
    var collection := ColumnValue("Parent Collection", header, row);
    var required := if StrInSlice(column, RequiredFields) && nodeId == "" then Some("Missing value") else None;
    var paged :=
      if column == "Parent Collection" && model == "Paged Content" && parentId == ""
      then Some("Paged content must have a parent collection or parent ID") else required;
    var page :=
      if column == "Page/Item Parent ID" && model == "Page" && collection == ""
      then Some("Pages must have a parent id or parent collection") else paged;
    if column == "Resource Type" && model != "Page" then Some("Must have a resource type") else page
  }

  // ---------------------------------------------------------------------------
  // Tokens

  /** Every part, trimmed. */
  function TrimAll(parts: seq<string>): (r: seq<string>)
    ensures |r| == |parts|
    ensures forall j :: 0 <= j < |parts| ==> r[j] == TrimSpace(parts[j])
  {
    if |parts| == 0 then [] else [TrimSpace(parts[0])] + TrimAll(parts[1..])
  }

  /** The non-empty entries of `parts`, in order. */
  function NonEmpty(parts: seq<string>): (r: seq<string>)
    ensures forall t :: t in r <==> t in parts && t != ""
    ensures |r| <= |parts|
    ensures multiset(r) == multiset(parts)["" := 0]
  {
    if |parts| == 0 then []
    else
      assert parts == [parts[0]] + parts[1..];
      if parts[0] == "" then NonEmpty(parts[1..])
      else [parts[0]] + NonEmpty(parts[1..])
  }

  /** The tokens of a cell: split on " ; ", trimmed, empty ones dropped. */
  function Tokens(cell: string): (r: seq<string>)
    ensures forall j :: 0 <= j < |r| ==> r[j] != "" && TrimSpace(r[j]) == r[j]
    ensures |r| <= |Split(cell, " ; ")|
    ensures multiset(r) == multiset(TrimAll(Split(cell, " ; ")))["" := 0]
  {
    var parts := TrimAll(Split(cell, " ; "));
    var r := NonEmpty(parts);
    assert forall j :: 0 <= j < |r| ==> r[j] != "" && TrimSpace(r[j]) == r[j] by {
      TrimAllTrimmed(Split(cell, " ; "));
      forall j | 0 <= j < |r| ensures r[j] != "" && TrimSpace(r[j]) == r[j] {
        assert r[j] in parts;
      }
    }
    r
  }

  /** Dropping empty entries keeps the order: it distributes over
      concatenation, and a single entry is kept exactly when it is not empty. */
  lemma {:induction false} NonEmptyAppend(a: seq<string>, b: seq<string>)
    ensures NonEmpty(a + b) == NonEmpty(a) + NonEmpty(b)
    decreases |a|
  {
    if |a| == 0 {
      assert a + b == b;
    } else {
      var x, t := a[0], a[1..];
      var h := if x == "" then [] else [x];
      assert a == [x] + t;
      calc {
        NonEmpty(a + b);
        { assert a + b == [x] + (t + b); }
        NonEmpty([x] + (t + b));
        { NonEmptyCons(x, t + b); }
        h + NonEmpty(t + b);
        { NonEmptyAppend(t, b); }
        h + (NonEmpty(t) + NonEmpty(b));
        (h + NonEmpty(t)) + NonEmpty(b);
        { NonEmptyCons(x, t); }
        NonEmpty(a) + NonEmpty(b);
      }
    }
  }

  /** The first entry is kept exactly when it is not empty. */
  lemma NonEmptyCons(x: string, t: seq<string>)
    ensures NonEmpty([x] + t) == (if x == "" then [] else [x]) + NonEmpty(t)
  {
    assert ([x] + t)[0] == x && ([x] + t)[1..] == t;
  }

  /** A single entry is kept exactly when it is not empty. */
  lemma NonEmptySingle(t: string)
    ensures NonEmpty([t]) == if t == "" then [] else [t]
  {
    assert [t][1..] == [];
  }

  /** The tokens of cells joined with " ; " are the tokens of each cell in
      turn, with the parts of every cell trimmed and the empty ones dropped. */
  lemma TokensOfParts(a: seq<string>, b: seq<string>)
    ensures NonEmpty(TrimAll(a + b)) == NonEmpty(TrimAll(a)) + NonEmpty(TrimAll(b))
  {
    TrimAllAppend(a, b);
    NonEmptyAppend(TrimAll(a), TrimAll(b));
  }

  /** Trimmed entries are already trimmed. */
  lemma TrimAllTrimmed(pieces: seq<string>)
    ensures forall t :: t in TrimAll(pieces) ==> TrimSpace(t) == t
  {
    var parts := TrimAll(pieces);
    forall j | 0 <= j < |parts| ensures TrimSpace(parts[j]) == parts[j] {
      TrimSpaceIdempotent(pieces[j]);
    }
  }

  /** Trimming distributes over concatenation. */
  lemma {:induction false} TrimAllAppend(a: seq<string>, b: seq<string>)
    ensures TrimAll(a + b) == TrimAll(a) + TrimAll(b)
    decreases |a|
  {
    if |a| == 0 {
      assert a + b == b;
    } else {
      assert (a + b)[0] == a[0];
      assert (a + b)[1..] == a[1..] + b;
      TrimAllAppend(a[1..], b);
    }
  }

  // ---------------------------------------------------------------------------
  // Memoisation

  /** The remembered URL answers are the oracle's, for exactly the URLs asked
      about, each asked once; the TGN values checked are exactly those looked
      up, each once. */
  ghost predicate MemoOk(env: CheckEnv, b: Batch) {
    && NoDuplicates(b.headRequests)
    && (forall i :: 0 <= i < |b.headRequests| ==> b.headRequests[i] in b.urlCache)
    && (forall u :: u in b.urlCache ==> u in b.headRequests && b.urlCache[u] == env.headOk(u))
    && NoDuplicates(b.tgnLookups)
    && (forall i :: 0 <= i < |b.tgnLookups| ==> b.tgnLookups[i] in b.hierarchyChecked)
    && (forall t :: t in b.hierarchyChecked ==> t in b.tgnLookups)
  }

  /** Nothing has been asked yet, so the empty memo agrees with the environment. */
  lemma EmptyBatchMemoOk(env: CheckEnv)
    ensures MemoOk(env, EmptyBatch)
  {
  }

  /** `b2` differs from `b1` at most in the URL memo. */
  predicate OnlyUrlsChanged(b1: Batch, b2: Batch) {
    b2 == b1.(urlCache := b2.urlCache, headRequests := b2.headRequests)
  }

  /** `checkURL`: a remembered answer, or a HEAD request whose answer is
      remembered. */
  function CheckUrl(env: CheckEnv, url: string, b: Batch): (r: (bool, Batch))
    ensures OnlyUrlsChanged(b, r.1)
    ensures url in b.urlCache ==> r == (b.urlCache[url], b)
    ensures url !in b.urlCache ==> r.1.headRequests == b.headRequests + [url]
    ensures MemoOk(env, b) ==> r.0 == env.headOk(url) && MemoOk(env, r.1)
  {
    if url in b.urlCache then (b.urlCache[url], b)
    else
      var ok := env.headOk(url);
      (ok, b.(urlCache := b.urlCache[url := ok], headRequests := b.headRequests + [url]))
  }

  /** The JSON URL of a node of the site. */
  function NodeUrl(site: string, id: int): (r: string)
    ensures HasPrefix(r, site + "/node/")
  {
    site + "/node/" + Itoa(id) + "?_format=json"
  }

  /** Distinct node ids are asked at distinct URLs, so a remembered answer is
      never reused for another node. */
  lemma NodeUrlInjective(site: string, a: int, b: int)
    requires NodeUrl(site, a) == NodeUrl(site, b)
    ensures a == b
  {
    var lead := site + "/node/";
    var tail := "?_format=json";
    assert NodeUrl(site, a)[|lead|..|NodeUrl(site, a)| - |tail|] == Itoa(a);
    assert NodeUrl(site, b)[|lead|..|NodeUrl(site, b)| - |tail|] == Itoa(b);
    ItoaInjective(a, b);
  }

  // ---------------------------------------------------------------------------
  // Token rules

  /** Parent Collection, PPI and Node ID must be integers; a parent collection
      or node id must also exist on the site. */
  function IntegerRule(env: CheckEnv, column: string, cell: string, b: Batch): (r: Verdict)
    requires column == "Parent Collection" || column == "PPI" || column == "Node ID"
    ensures OnlyUrlsChanged(b, r.batch)
    ensures MemoOk(env, b) ==> MemoOk(env, r.batch)
    ensures Atoi(cell).None? ==> r == Verdict(Some("Must be an integer"), b)
    ensures column == "PPI" && Atoi(cell).Some? ==> r == Verdict(None, b)
    ensures MemoOk(env, b) && column != "PPI" && Atoi(cell).Some? ==>
      (r.message.None? <==> env.headOk(NodeUrl(env.siteUrl, Atoi(cell).value)))
    ensures column == "Parent Collection" && r.message.Some? && Atoi(cell).Some? ==>
      r.message.value == "Could not identify parent collection " + Itoa(Atoi(cell).value)
    ensures column == "Node ID" && r.message.Some? && Atoi(cell).Some? ==>
      r.message.value == "Could not find node ID " + Itoa(Atoi(cell).value)
  {
    match Atoi(cell)
    case None => Verdict(Some("Must be an integer"), b)
    case Some(id) =>
      if column == "PPI" then Verdict(None, b)
      else
        var (ok, b') := CheckUrl(env, NodeUrl(env.siteUrl, id), b);
        if ok then Verdict(None, b')
        else if column == "Parent Collection" then Verdict(Some("Could not identify parent collection " + Itoa(id)), b')
        else Verdict(Some("Could not find node ID " + Itoa(id)), b')
  }

  /** A catalog URL must parse as a request URI with a scheme or a host. */
  function UrlRule(env: CheckEnv, cell: string): (r: Option<string>)
    ensures r.None? <==>
      (env.parseRequestUri(cell).Some? &&
       (env.parseRequestUri(cell).value.scheme != "" || env.parseRequestUri(cell).value.host != ""))
    ensures r.Some? ==> r.value == "Invalid URL"
  {
    match env.parseRequestUri(cell)
    case None => Some("Invalid URL")
    case Some(u) => if u.scheme == "" && u.host == "" then Some("Invalid URL") else None
  }

  /** The length of the run of ASCII digits `s` starts with. */
  function LeadingDigits(s: string): (n: nat)
    ensures n <= |s| && AllDigits(s[..n])
    ensures n < |s| ==> !IsDigit(s[n])
  {
    if |s| == 0 || !IsDigit(s[0]) then 0
    else
      var n := 1 + LeadingDigits(s[1..]);
      assert s[..n] == [s[0]] + s[1..][..n - 1];
      n
  }

  /** The characters the DOI pattern allows after the prefix's slash. */
  predicate DoiChar(ch: char) {
    ch in "-._;()/:" || 'A' <= ch <= 'Z' || 'a' <= ch <= 'z' || IsDigit(ch)
  }

  predicate AllDoiChars(s: string) {
    forall k :: 0 <= k < |s| ==> DoiChar(s[k])
  }

  /** The DOI pattern `^10\.\d{4,9}/[-._;()/:A-Za-z0-9]+$`, read left to right:
      the digit run after "10." is taken whole, since a digit is never the
      slash that must follow it. */
  predicate MatchesDoi(s: string) {
    && |s| >= 3 && s[..3] == "10."
    && var k := LeadingDigits(s[3..]);
    && 4 <= k <= 9 && 4 + k < |s| && s[3 + k] == '/'
    && AllDoiChars(s[4 + k..])
  }

  /** Dates of the form YYYY, YYYY-MM or YYYY-MM-DD. */
  predicate MatchesDate(s: string) {
    && (|s| == 4 || |s| == 7 || |s| == 10)
    && AllDigits(s[..4])
    && (|s| >= 7 ==> s[4] == '-' && AllDigits(s[5..7]))
    && (|s| == 10 ==> s[7] == '-' && AllDigits(s[8..10]))
  }

  /** The check of a date column: the date pattern or any EDTF value. */
  function DateRule(env: CheckEnv, cell: string): (r: Option<string>)
    ensures r.None? <==> MatchesDate(cell) || env.edtfValid(cell)
    ensures r.Some? ==> r.value == "Invalid EDTF value"
  {
    if !MatchesDate(cell) && !env.edtfValid(cell) then Some("Invalid EDTF value") else None
  }

  /** A parent id must be an upload id of an earlier cell, and not its own
      row's. */
  function ParentIdRule(cell: string, header: seq<string>, row: seq<string>, uploadIds: set<string>): (r: Option<string>)
    requires CanLookUp("Upload ID", header, row)
    ensures r == Some("Unknown parent ID") <==> cell !in uploadIds
    ensures r == Some("Upload ID and parent ID can not be equal") <==>
      cell in uploadIds && cell == ColumnValue("Upload ID", header, row)
    ensures r.None? <==> cell in uploadIds && cell != ColumnValue("Upload ID", header, row)
  {
    if cell !in uploadIds then Some("Unknown parent ID")
    else if cell == ColumnValue("Upload ID", header, row) then Some("Upload ID and parent ID can not be equal")
    else None
  }

  /** The contributor rules, each overwriting the message of the ones before:
      the JSON must decode, the name must have four ':' parts (and if not,
      nothing else is checked), extra fields are for people only, the
      vocabulary must be person or corporate_body and the relator a known
      one. */
  function ContributorRule(d: Decoded): (r: Option<string>)
    ensures |NameParts(d.value)| < 4 ==> r == Some("Contributor name not in proper format")
    ensures |NameParts(d.value)| >= 4 ==>
      var parts := NameParts(d.value);
      && (r.None? <==>
            d.ok && (!HasPersonFields(d.value) || parts[2] == "person")
            && (parts[2] == "person" || parts[2] == "corporate_body") && RelatorOf(parts) in ValidRelators)
      && (RelatorOf(parts) !in ValidRelators ==> r == Some("Invalid relator: " + RelatorOf(parts)))
      && (RelatorOf(parts) in ValidRelators && parts[2] != "person" && parts[2] != "corporate_body" ==>
            r == Some("Bad vocabulary ID for contributor: " + parts[2]))
      && (RelatorOf(parts) in ValidRelators && parts[2] == "corporate_body" && HasPersonFields(d.value) ==>
            r == Some("Additional fields can only be applied to people"))
      && (RelatorOf(parts) in ValidRelators && (parts[2] == "person" || parts[2] == "corporate_body")
          && (!HasPersonFields(d.value) || parts[2] == "person") && !d.ok ==>
            r == Some("Contributor not in proper format"))
  {
    var c := d.value;
    var decoded := if !d.ok then Some("Contributor not in proper format") else None;
    var parts := NameParts(c);
    if |parts| < 4 then Some("Contributor name not in proper format")
    else
      var extra := if HasPersonFields(c) && parts[2] != "person" then Some("Additional fields can only be applied to people") else decoded;
      var vocab := if !StrInSlice(parts[2], ["person", "corporate_body"]) then Some("Bad vocabulary ID for contributor: " + parts[2]) else extra;
      var relator := RelatorOf(parts);
      if !StrInSlice(relator, ValidRelators) then Some("Invalid relator: " + relator) else vocab
  }

  /** The staging root the data mount stands in for. */
  const StagingRoot := "/mnt/islandora_staging"

  /** The path whose existence is checked: the staged path with every
      leftmost occurrence of the staging root replaced by the data mount. */
  function CheckedPath(cell: string, mount: string): (r: Option<string>)
    ensures r.None? <==> CheckStagedPath(cell).None?
    ensures mount == StagingRoot ==> r == CheckStagedPath(cell)
    ensures r.Some? ==> forall parts ::
      |parts| > 0 && Join(parts, StagingRoot) == CheckStagedPath(cell).value && LeftmostCuts(parts, StagingRoot) ==>
        r.value == Join(parts, mount)
  {
    match CheckStagedPath(cell)
    case None => None
    case Some(p) =>
      assert forall parts :: |parts| > 0 && Join(parts, StagingRoot) == p && LeftmostCuts(parts, StagingRoot) ==>
        ReplaceAll(p, StagingRoot, mount) == Join(parts, mount) by {
        forall parts | |parts| > 0 && Join(parts, StagingRoot) == p && LeftmostCuts(parts, StagingRoot)
          ensures ReplaceAll(p, StagingRoot, mount) == Join(parts, mount)
        {
          ReplaceAllPieces(p, StagingRoot, mount, parts);
        }
      }
      Some(ReplaceAll(p, StagingRoot, mount))
  }

  /** A staged path that starts at the staging root, and holds no second
      occurrence of it, is looked up under the data mount instead. */
  lemma CheckedPathMount(cell: string, mount: string, tail: string)
    requires CheckStagedPath(cell) == Some(StagingRoot + tail)
    requires NoMatchBefore(tail, StagingRoot, |tail| + 1)
    ensures CheckedPath(cell, mount) == Some(mount + tail)
  {
    ReplaceLeading(StagingRoot, tail, mount);
  }

  /** A file must exist in the staging area; paths under /home/ are let through. */
  function FileRule(env: CheckEnv, cell: string): (r: Option<string>)
    ensures r.Some? <==> CheckedPath(cell, env.dataMount).Some? && !env.fileExists(CheckedPath(cell, env.dataMount).value)
    ensures r.Some? ==> r.value == "File does not exist in islandora_staging"
  {
    match CheckedPath(cell, env.dataMount)
    case None => None
    case Some(p) => if !env.fileExists(p) then Some("File does not exist in islandora_staging") else None
  }

  /** A TGN value is resolved the first time it is seen; later occurrences are
      neither resolved again nor reported. */
  function TgnRule(env: CheckEnv, cell: string, b: Batch): (r: Verdict)
    ensures cell in b.hierarchyChecked ==> r == Verdict(None, b)
    ensures cell !in b.hierarchyChecked ==>
      && r.batch == b.(hierarchyChecked := b.hierarchyChecked + {cell}, tgnLookups := b.tgnLookups + [cell])
      && (r.message.Some? <==> Tgn.GetLocationFromTGN(env.gazetteer, cell).Err?)
      && (r.message.Some? ==> r.message.value == "Unable to get TGN")
    ensures MemoOk(env, b) ==> MemoOk(env, r.batch)
  {
    if cell in b.hierarchyChecked then Verdict(None, b)
    else
      var b' := b.(hierarchyChecked := b.hierarchyChecked + {cell}, tgnLookups := b.tgnLookups + [cell]);
      if Tgn.GetLocationFromTGN(env.gazetteer, cell).Err? then Verdict(Some("Unable to get TGN"), b') else Verdict(None, b')
  }

  /** The columns `StatelessRule` has a rule for. */
  const StatelessColumns: set<string> := {
    "Catalog or ArchivesSpace URL", "Creation Date", "Date Captured", "Embargo Until Date", "DOI",
    "Page/Item Parent ID", "Contributor", "File Path", "Supplemental File", "Add Coverpage (Y/N)",
    "Make Public (Y/N)", "Title"
  }

  /** The rules that only read the batch: everything but the integer, upload
      id and TGN columns. A column without a rule accepts every token. */
  function StatelessRule(env: CheckEnv, column: string, header: seq<string>, row: seq<string>, cell: string,
                         uploadIds: set<string>): (r: Option<string>)
    requires CanLookUp("Upload ID", header, row)
    ensures column == "DOI" ==> (r.None? <==> MatchesDoi(cell)) && (r.Some? ==> r.value == "Invalid DOI")
    ensures column == "Add Coverpage (Y/N)" || column == "Make Public (Y/N)" ==>
      (r.None? <==> cell == "Yes" || cell == "No") && (r.Some? ==> r.value == "Invalid value. Must be Yes or No")
    ensures column == "Title" ==>
      (r.None? <==> Utf8Len(cell) <= 255) && (r.Some? ==> r.value == "Title is longer than 255 characters")
    ensures column == "Creation Date" || column == "Date Captured" || column == "Embargo Until Date" ==>
      (r.None? <==> MatchesDate(cell) || env.edtfValid(cell)) && (r.Some? ==> r.value == "Invalid EDTF value")
    ensures column == "File Path" || column == "Supplemental File" ==> r == FileRule(env, cell)
    ensures column !in StatelessColumns ==> r.None?
  {
    if column == "Catalog or ArchivesSpace URL" then UrlRule(env, cell)
    else if column == "Page/Item Parent ID" then ParentIdRule(cell, header, row, uploadIds)
    else if column == "Contributor" then ContributorRule(env.decodeContributor(cell))
    else ValueRule(env, column, cell)
  }

  /** The rules of `StatelessRule` that look at the token alone: dates, DOIs,
      files, Yes/No values and titles. */
  function ValueRule(env: CheckEnv, column: string, cell: string): (r: Option<string>)
    ensures column == "DOI" ==> (r.None? <==> MatchesDoi(cell)) && (r.Some? ==> r.value == "Invalid DOI")
    ensures column == "Add Coverpage (Y/N)" || column == "Make Public (Y/N)" ==>
      (r.None? <==> cell == "Yes" || cell == "No") && (r.Some? ==> r.value == "Invalid value. Must be Yes or No")
    ensures column == "Title" ==>
      (r.None? <==> Utf8Len(cell) <= 255) && (r.Some? ==> r.value == "Title is longer than 255 characters")
    ensures column == "Creation Date" || column == "Date Captured" || column == "Embargo Until Date" ==>
      (r.None? <==> MatchesDate(cell) || env.edtfValid(cell)) && (r.Some? ==> r.value == "Invalid EDTF value")
    ensures column == "File Path" || column == "Supplemental File" ==> r == FileRule(env, cell)
    ensures column !in StatelessColumns ==> r.None?
  {
    if column == "Creation Date" || column == "Date Captured" || column == "Embargo Until Date" then
      DateRule(env, cell)
    else if column == "DOI" then (if !MatchesDoi(cell) then Some("Invalid DOI") else None)
    else if column == "File Path" || column == "Supplemental File" then FileRule(env, cell)
    else if column == "Add Coverpage (Y/N)" || column == "Make Public (Y/N)" then
      (if cell != "Yes" && cell != "No" then Some("Invalid value. Must be Yes or No") else None)
    else if column == "Title" then
      (if Utf8Len(cell) > 255 then Some("Title is longer than 255 characters") else None)
    else None
  }

  /** The rule of `column` applied to one token. The column names tested are
      distinct, so trying the columns that change the batch first picks the
      same rule as the source's switch. */
  function CheckToken(env: CheckEnv, column: string, header: seq<string>, row: seq<string>, cell: string, b: Batch): (r: Verdict)
    requires CanLookUp("Upload ID", header, row)
    ensures column == "Upload ID" ==> r.batch.uploadIds == b.uploadIds + {cell}
    ensures column != "Upload ID" ==> r.batch.uploadIds == b.uploadIds
    ensures column != TgnColumn ==> r.batch.hierarchyChecked == b.hierarchyChecked && r.batch.tgnLookups == b.tgnLookups
    ensures MemoOk(env, b) ==> MemoOk(env, r.batch)
    ensures column == "Parent Collection" || column == "PPI" || column == "Node ID" ==> r == IntegerRule(env, column, cell, b)
    ensures column == TgnColumn ==> r == TgnRule(env, cell, b)
    ensures column !in {"Parent Collection", "PPI", "Node ID", "Upload ID", TgnColumn} ==>
      r == Verdict(StatelessRule(env, column, header, row, cell, b.uploadIds), b)
  {
    if column == "Parent Collection" || column == "PPI" || column == "Node ID" then IntegerRule(env, column, cell, b)
    else if column == "Upload ID" then
      Verdict(if cell in b.uploadIds then Some("Duplicate upload ID") else None, b.(uploadIds := b.uploadIds + {cell}))
    else if column == TgnColumn then TgnRule(env, cell, b)
    else Verdict(StatelessRule(env, column, header, row, cell, b.uploadIds), b)
  }

  /** The tokens of a cell checked left to right; a token without a message
      leaves the message of the tokens before it. */
  function CheckTokens(env: CheckEnv, column: string, header: seq<string>, row: seq<string>,
                       tokens: seq<string>, message: Option<string>, b: Batch): (r: Verdict)
    requires CanLookUp("Upload ID", header, row)
    ensures r.batch.uploadIds == b.uploadIds + (if column == "Upload ID" then (set t | t in tokens) else {})
    ensures column != TgnColumn ==> r.batch.hierarchyChecked == b.hierarchyChecked && r.batch.tgnLookups == b.tgnLookups
    ensures MemoOk(env, b) ==> MemoOk(env, r.batch)
    ensures message.Some? ==> r.message.Some?
    decreases |tokens|
  {
    if |tokens| == 0 then Verdict(message, b)
    else
      var first := CheckToken(env, column, header, row, tokens[0], b);
      var next := if first.message.Some? then first.message else message;
      var r := CheckTokens(env, column, header, row, tokens[1..], next, first.batch);
      assert (set t | t in tokens) == {tokens[0]} + (set t | t in tokens[1..]);
      r
  }

  /** Checking one more token: its message, if it has one, replaces the
      cell's message so far, so the cell reports the message of its last
      failing token. */
  lemma {:induction false} CheckTokensSnoc(env: CheckEnv, column: string, header: seq<string>, row: seq<string>,
                                           tokens: seq<string>, t: string, message: Option<string>, b: Batch)
    requires CanLookUp("Upload ID", header, row)
    ensures var v := CheckTokens(env, column, header, row, tokens, message, b);
      var last := CheckToken(env, column, header, row, t, v.batch);
      CheckTokens(env, column, header, row, tokens + [t], message, b)
        == Verdict(if last.message.Some? then last.message else v.message, last.batch)
    decreases |tokens|
  {
    var all := tokens + [t];
    if |tokens| == 0 {
      assert all == [t] && all[1..] == [];
    } else {
      assert all[0] == tokens[0] && all[1..] == tokens[1..] + [t];
      var first := CheckToken(env, column, header, row, tokens[0], b);
      var next := if first.message.Some? then first.message else message;
      CheckTokensSnoc(env, column, header, row, tokens[1..], t, next, first.batch);
    }
  }

  /** The upload ids a cell adds. */
  function CellUploads(column: string, cell: string): set<string> {
    if column == "Upload ID" && cell != "" then (set t | t in Tokens(cell)) else {}
  }

  /** The verdict of the cell in column `c` of `row`. */
  function CellVerdict(env: CheckEnv, header: seq<string>, row: seq<string>, c: nat, b: Batch): (r: Verdict)
    requires c < |row| && WellShaped(header, row)
    ensures r.batch.uploadIds == b.uploadIds + CellUploads(header[c], row[c])
    ensures MemoOk(env, b) ==> MemoOk(env, r.batch)
    ensures row[c] == "" ==> r == Verdict(EmptyCellMessage(header[c], header, row), b)
    ensures row[c] != "" ==> r == CheckTokens(env, header[c], header, row, Tokens(row[c]), None, b)
  {
    if row[c] == "" then Verdict(EmptyCellMessage(header[c], header, row), b)
    else CheckTokens(env, header[c], header, row, Tokens(row[c]), None, b)
  }

  /** The state after the first `k` cells of a row, left to right. */
  function CheckCells(env: CheckEnv, header: seq<string>, row: seq<string>, k: nat, b: Batch): (out: Batch)
    requires k <= |row| && WellShaped(header, row)
    ensures MemoOk(env, b) ==> MemoOk(env, out)
    ensures out.uploadIds == b.uploadIds + RowUploads(header, row, k)
    decreases k
  {
    if k == 0 then b else CellVerdict(env, header, row, k - 1, CheckCells(env, header, row, k - 1, b)).batch
  }

  /** The state after the first `n` data rows, top to bottom. */
  function CheckRows(env: CheckEnv, header: seq<string>, rows: seq<seq<string>>, n: nat, b: Batch): (out: Batch)
    requires n <= |rows| && AllWellShaped(header, rows)
    ensures MemoOk(env, b) ==> MemoOk(env, out)
    ensures out.uploadIds == b.uploadIds + RowsUploads(header, rows, n)
    decreases n
  {
    if n == 0 then b else CheckCells(env, header, rows[n - 1], |rows[n - 1]|, CheckRows(env, header, rows, n - 1, b))
  }

  /** The state the check is in when it reaches cell `c` of data row `r`. */
  function StateBefore(env: CheckEnv, header: seq<string>, rows: seq<seq<string>>, r: nat, c: nat): (b: Batch)
    requires r < |rows| && c <= |rows[r]| && AllWellShaped(header, rows)
    ensures MemoOk(env, b)
  {
    EmptyBatchMemoOk(env);
    var before := CheckRows(env, header, rows, r, EmptyBatch);
    CheckCells(env, header, rows[r], c, before)
  }

  /** The message of cell `c` of data row `r`: its verdict in the state the
      check reaches it in. */
  function MessageAt(env: CheckEnv, header: seq<string>, rows: seq<seq<string>>, r: nat, c: nat): Option<string>
    requires r < |rows| && c < |rows[r]| && AllWellShaped(header, rows)
  {
    CellVerdict(env, header, rows[r], c, StateBefore(env, header, rows, r, c)).message
  }

  /** Every cell's message, row by row. */
  function MessageGrid(env: CheckEnv, header: seq<string>, rows: seq<seq<string>>): (grid: seq<seq<Option<string>>>)
    requires AllWellShaped(header, rows)
    ensures |grid| == |rows|
    ensures forall r :: 0 <= r < |rows| ==> |grid[r]| == |rows[r]|
    ensures forall r, c :: 0 <= r < |rows| && 0 <= c < |rows[r]| ==> grid[r][c] == MessageAt(env, header, rows, r, c)
  {
    seq(|rows|, r requires 0 <= r < |rows| =>
      seq(|rows[r]|, c requires 0 <= c < |rows[r]| => MessageAt(env, header, rows, r, c)))
  }

  /** The cells are checked in reading order: each cell in the state the cell
      before it leaves, the first cell of a row in the state the row before it
      ends in, and the first cell of the sheet with nothing remembered. */
  lemma ReadingOrder(env: CheckEnv, header: seq<string>, rows: seq<seq<string>>, r: nat, c: nat)
    requires r < |rows| && c < |rows[r]| && AllWellShaped(header, rows)
    ensures StateBefore(env, header, rows, r, c + 1)
      == CellVerdict(env, header, rows[r], c, StateBefore(env, header, rows, r, c)).batch
    ensures r + 1 < |rows| ==> StateBefore(env, header, rows, r + 1, 0) == StateBefore(env, header, rows, r, |rows[r]|)
    ensures StateBefore(env, header, rows, 0, 0) == EmptyBatch
  {
  }

  /** The state after the whole sheet. */
  function FinalState(env: CheckEnv, header: seq<string>, rows: seq<seq<string>>): (b: Batch)
    requires AllWellShaped(header, rows)
    ensures MemoOk(env, b)
  {
    EmptyBatchMemoOk(env);
    CheckRows(env, header, rows, |rows|, EmptyBatch)
  }

  // ---------------------------------------------------------------------------
  // The report

  /** Writes a message, if there is one, at `address`. */
  function Write(m: map<string, string>, address: string, message: Option<string>): (r: map<string, string>)
    ensures At(r, address) == (if message.Some? then message else At(m, address))
    ensures forall a :: a != address ==> At(r, a) == At(m, a)
  {
    if message.Some? then m[address := message.value] else m
  }

  /** A way of naming cells that gives distinct cells distinct names. */
  ghost predicate Injective(key: (nat, nat) -> string) {
    forall c1, r1, c2, r2 :: key(c1, r1) == key(c2, r2) ==> c1 == c2 && r1 == r2
  }

  /** The first `k` messages of data row `r` written under their cells' keys. */
  function WriteCells(key: (nat, nat) -> string, messages: seq<Option<string>>, r: nat, k: nat,
                      m: map<string, string>): map<string, string>
    requires k <= |messages|
    decreases k
  {
    if k == 0 then m else Write(WriteCells(key, messages, r, k - 1, m), key(k - 1, r), messages[k - 1])
  }

  /** The first `n` rows of messages written under their cells' keys. */
  function WriteRows(key: (nat, nat) -> string, grid: seq<seq<Option<string>>>, n: nat): map<string, string>
    requires n <= |grid|
    decreases n
  {
    if n == 0 then map[] else WriteCells(key, grid[n - 1], n - 1, |grid[n - 1]|, WriteRows(key, grid, n - 1))
  }

  /** The report: every message of the sheet under its cell's key. */
  function ReportOf(key: (nat, nat) -> string, grid: seq<seq<Option<string>>>): map<string, string> {
    WriteRows(key, grid, |grid|)
  }

  /** Report keys are the cells' spreadsheet addresses. */
  function AddressKey(): (nat, nat) -> string {
    (c: nat, r: nat) => Address(c, r)
  }

  /** `CheckMyWork`'s report: a sheet of fewer than two records reports only
      that it has no rows; otherwise the first record is the header and every
      later one is checked, and each cell's message is reported at its
      address. */
  function CheckMyWork(env: CheckEnv, csv: seq<seq<string>>): (report: map<string, string>)
    requires |csv| >= 2 ==> AllWellShaped(csv[0], csv[1..])
    ensures |csv| < 2 ==> report == map["A" := "No rows in CSV to process"]
  {
    assert NoRowsKey == "A";
    if |csv| < 2 then map[NoRowsKey := NoRowsMessage]
    else ReportOf(AddressKey(), MessageGrid(env, csv[0], csv[1..]))
  }

  /** Distinct cells have distinct addresses. */
  lemma AddressesDiffer()
    ensures Injective(AddressKey())
  {
    forall c1: nat, r1: nat, c2: nat, r2: nat | AddressKey()(c1, r1) == AddressKey()(c2, r2)
      ensures c1 == c2 && r1 == r2
    {
      AddressInjective(c1, r1, c2, r2);
    }
  }

  /** Writing the first `k` cells of row `r` leaves the later cells of that row
      and the cells of other rows alone. */
  lemma {:induction false} CellsKeepOthers(key: (nat, nat) -> string, messages: seq<Option<string>>, r: nat, k: nat,
                                           m: map<string, string>, c2: nat, r2: nat)
    requires Injective(key)
    requires k <= |messages|
    requires r2 != r || c2 >= k
    ensures At(WriteCells(key, messages, r, k, m), key(c2, r2)) == At(m, key(c2, r2))
    decreases k
  {
    if k > 0 {
      CellsKeepOthers(key, messages, r, k - 1, m, c2, r2);
      assert key(k - 1, r) != key(c2, r2);
    }
  }

  /** Once cell `c` of a row is written, the cells after it leave it alone. */
  lemma {:induction false} CellsKeepEarlier(key: (nat, nat) -> string, messages: seq<Option<string>>, r: nat, k: nat,
                                            m: map<string, string>, c: nat)
    requires Injective(key)
    requires c < k <= |messages|
    ensures At(WriteCells(key, messages, r, k, m), key(c, r)) == At(WriteCells(key, messages, r, c + 1, m), key(c, r))
    decreases k
  {
    if k > c + 1 {
      CellsKeepEarlier(key, messages, r, k - 1, m, c);
      assert key(k - 1, r) != key(c, r);
    }
  }

  /** The first `n` rows do not write the cells of later rows. */
  lemma {:induction false} RowsKeepLater(key: (nat, nat) -> string, grid: seq<seq<Option<string>>>, n: nat, c2: nat, r2: nat)
    requires Injective(key)
    requires n <= |grid| && r2 >= n
    ensures At(WriteRows(key, grid, n), key(c2, r2)) == None
    decreases n
  {
    if n > 0 {
      RowsKeepLater(key, grid, n - 1, c2, r2);
      CellsKeepOthers(key, grid[n - 1], n - 1, |grid[n - 1]|, WriteRows(key, grid, n - 1), c2, r2);
    }
  }

  /** Rows after row `r` do not write its cells. */
  lemma {:induction false} RowsKeepEarlier(key: (nat, nat) -> string, grid: seq<seq<Option<string>>>, n: nat, c: nat, r: nat)
    requires Injective(key)
    requires r < n <= |grid|
    ensures At(WriteRows(key, grid, n), key(c, r)) == At(WriteRows(key, grid, r + 1), key(c, r))
    decreases n
  {
    if n > r + 1 {
      RowsKeepEarlier(key, grid, n - 1, c, r);
      CellsKeepOthers(key, grid[n - 1], n - 1, |grid[n - 1]|, WriteRows(key, grid, n - 1), c, r);
    }
  }

  /** Writing the first `k` cells of row `r` adds only keys of those cells
      that have a message. */
  lemma {:induction false} WriteCellsKeys(key: (nat, nat) -> string, messages: seq<Option<string>>, r: nat, k: nat,
                                          m: map<string, string>)
    requires k <= |messages|
    ensures forall a :: a in WriteCells(key, messages, r, k, m) ==>
      a in m || exists c :: 0 <= c < k && a == key(c, r) && messages[c].Some?
    decreases k
  {
    if k > 0 {
      WriteCellsKeys(key, messages, r, k - 1, m);
    }
  }

  /** The first `n` rows hold only keys of cells that have a message. */
  lemma {:induction false} WriteRowsKeys(key: (nat, nat) -> string, grid: seq<seq<Option<string>>>, n: nat)
    requires n <= |grid|
    ensures forall a :: a in WriteRows(key, grid, n) ==>
      exists r, c :: 0 <= r < n && 0 <= c < |grid[r]| && a == key(c, r) && grid[r][c].Some?
    decreases n
  {
    if n > 0 {
      WriteRowsKeys(key, grid, n - 1);
      WriteCellsKeys(key, grid[n - 1], n - 1, |grid[n - 1]|, WriteRows(key, grid, n - 1));
    }
  }

  /** The report holds, under each cell's key, exactly that cell's message. */
  lemma ReportOfAt(key: (nat, nat) -> string, grid: seq<seq<Option<string>>>, r: nat, c: nat)
    requires Injective(key)
    requires r < |grid| && c < |grid[r]|
    ensures At(ReportOf(key, grid), key(c, r)) == grid[r][c]
    ensures forall a :: a in ReportOf(key, grid) ==>
      exists r', c' :: 0 <= r' < |grid| && 0 <= c' < |grid[r']| && a == key(c', r') && grid[r'][c'].Some?
  {
    WriteRowsKeys(key, grid, |grid|);
    var before := WriteRows(key, grid, r);
    RowsKeepEarlier(key, grid, |grid|, c, r);
    CellsKeepEarlier(key, grid[r], r, |grid[r]|, before, c);
    CellsKeepOthers(key, grid[r], r, c, before, c, r);
    RowsKeepLater(key, grid, r, c, r);
  }

  /** The report holds, at each data cell's address, exactly the message of
      that cell's verdict in the state the check reached it in: the last
      message of its last failing token, or of its empty-cell rule. */
  lemma ReportAtCell(env: CheckEnv, csv: seq<seq<string>>, r: nat, c: nat)
    requires |csv| >= 2 && AllWellShaped(csv[0], csv[1..])
    requires r < |csv| - 1 && c < |csv[r + 1]|
    ensures At(CheckMyWork(env, csv), Address(c, r)) == MessageAt(env, csv[0], csv[1..], r, c)
    ensures forall a :: a in CheckMyWork(env, csv) ==>
      exists r', c' :: 0 <= r' < |csv| - 1 && 0 <= c' < |csv[1..][r']| && a == Address(c', r')
                       && MessageAt(env, csv[0], csv[1..], r', c').Some?
  {
    var grid := MessageGrid(env, csv[0], csv[1..]);
    AddressesDiffer();
    ReportOfAt(AddressKey(), grid, r, c);
    ReportOnlyCells(env, csv);
  }

  /** The report has no key but the addresses of data cells with a message. */
  lemma ReportOnlyCells(env: CheckEnv, csv: seq<seq<string>>)
    requires |csv| >= 2 && AllWellShaped(csv[0], csv[1..])
    ensures forall a :: a in CheckMyWork(env, csv) ==>
      exists r', c' :: 0 <= r' < |csv| - 1 && 0 <= c' < |csv[1..][r']| && a == Address(c', r')
                       && MessageAt(env, csv[0], csv[1..], r', c').Some?
  {
    var rows := csv[1..];
    var grid := MessageGrid(env, csv[0], rows);
    var report := ReportOf(AddressKey(), grid);
    assert CheckMyWork(env, csv) == report;
    WriteRowsKeys(AddressKey(), grid, |grid|);
    forall a | a in report
      ensures exists r', c' :: 0 <= r' < |rows| && 0 <= c' < |rows[r']| && a == Address(c', r')
                               && MessageAt(env, csv[0], rows, r', c').Some?
    {
      var r', c' :| 0 <= r' < |grid| && 0 <= c' < |grid[r']| && a == AddressKey()(c', r') && grid[r'][c'].Some?;
      GridAt(env, csv[0], rows, r', c');
      assert a == Address(c', r');
    }
  }

  /** One cell of the message grid. */
  lemma GridAt(env: CheckEnv, header: seq<string>, rows: seq<seq<string>>, r: nat, c: nat)
    requires r < |rows| && c < |rows[r]| && AllWellShaped(header, rows)
    ensures r < |MessageGrid(env, header, rows)| && c < |MessageGrid(env, header, rows)[r]|
    ensures MessageGrid(env, header, rows)[r][c] == MessageAt(env, header, rows, r, c)
  {
  }

  // ---------------------------------------------------------------------------
  // Upload ids

  /** The upload ids of the first `k` cells of a row. */
  function RowUploads(header: seq<string>, row: seq<string>, k: nat): set<string>
    requires k <= |row| <= |header|
  {
    if k == 0 then {} else RowUploads(header, row, k - 1) + CellUploads(header[k - 1], row[k - 1])
  }

  /** The upload ids of the first `n` rows. */
  function RowsUploads(header: seq<string>, rows: seq<seq<string>>, n: nat): set<string>
    requires n <= |rows| && AllWellShaped(header, rows)
  {
    if n == 0 then {} else RowsUploads(header, rows, n - 1) + RowUploads(header, rows[n - 1], |rows[n - 1]|)
  }

  /** When the check reaches a cell, the upload ids it knows are exactly the
      Upload ID tokens of the cells before it, in reading order. A token of an
      Upload ID cell is a duplicate, and a parent id is known, exactly when it
      is among them. */
  lemma UploadsBefore(env: CheckEnv, header: seq<string>, rows: seq<seq<string>>, r: nat, c: nat)
    requires r < |rows| && c <= |rows[r]| && AllWellShaped(header, rows)
    ensures StateBefore(env, header, rows, r, c).uploadIds == RowsUploads(header, rows, r) + RowUploads(header, rows[r], c)
  {
  }

  /** An Upload ID token is reported as a duplicate exactly when it was seen
      before, and is remembered either way. */
  lemma UploadIdRule(env: CheckEnv, header: seq<string>, row: seq<string>, cell: string, b: Batch)
    requires CanLookUp("Upload ID", header, row)
    ensures var v := CheckToken(env, "Upload ID", header, row, cell, b);
      && (v.message == Some("Duplicate upload ID") <==> cell in b.uploadIds)
      && (v.message.None? <==> cell !in b.uploadIds)
      && cell in v.batch.uploadIds
  {
  }

  /** The catalog URL, contributor and parent id columns are checked by their
      own rules, which keep no state. */
  lemma StatelessRuleDispatch(env: CheckEnv, header: seq<string>, row: seq<string>, cell: string, uploadIds: set<string>)
    requires CanLookUp("Upload ID", header, row)
    ensures StatelessRule(env, "Catalog or ArchivesSpace URL", header, row, cell, uploadIds) == UrlRule(env, cell)
    ensures StatelessRule(env, "Contributor", header, row, cell, uploadIds) == ContributorRule(env.decodeContributor(cell))
    ensures StatelessRule(env, "Page/Item Parent ID", header, row, cell, uploadIds) == ParentIdRule(cell, header, row, uploadIds)
  {
  }

  /** A token of a parent id cell: unknown unless an earlier Upload ID token
      had its value, and refused when it is its own row's upload id. */
  lemma ParentIdTokenRule(env: CheckEnv, header: seq<string>, row: seq<string>, cell: string, b: Batch)
    requires CanLookUp("Upload ID", header, row)
    ensures var v := CheckToken(env, "Page/Item Parent ID", header, row, cell, b);
      && v.batch == b
      && v.message == ParentIdRule(cell, header, row, b.uploadIds)
  {
  }

  // ---------------------------------------------------------------------------
  // Patterns

  /** A DOI of the shape "10.", four to nine digits, a slash and a non-empty
      run of the allowed characters, written out. */
  ghost predicate DoiParts(s: string) {
    exists d, rest :: s == "10." + d + "/" + rest && 4 <= |d| <= 9 && AllDigits(d) && |rest| > 0 && AllDoiChars(rest)
  }

  /** Every DOI the check accepts has that shape. */
  lemma DoiShapeSound(s: string)
    requires MatchesDoi(s)
    ensures DoiParts(s)
  {
    var k := LeadingDigits(s[3..]);
    var d, rest := s[3..3 + k], s[4 + k..];
    assert s[3..][..k] == d;
    assert s == "10." + d + "/" + rest;
  }

  /** Every string of that shape is accepted. */
  lemma DoiShapeComplete(s: string, d: string, rest: string)
    requires s == "10." + d + "/" + rest && 4 <= |d| <= 9 && AllDigits(d) && |rest| > 0 && AllDoiChars(rest)
    ensures MatchesDoi(s)
  {
    DigitRun(d, "/" + rest);
    assert s[3..] == d + ("/" + rest);
    assert s[..3] == "10.";
    assert s[4 + |d|..] == rest;
  }

  /** The DOI check accepts exactly "10.", four to nine digits, a slash and a
      non-empty run of the allowed characters. */
  lemma DoiShape(s: string)
    ensures MatchesDoi(s) <==> DoiParts(s)
  {
    if MatchesDoi(s) {
      DoiShapeSound(s);
    }
    if DoiParts(s) {
      var d, rest :| s == "10." + d + "/" + rest && 4 <= |d| <= 9 && AllDigits(d) && |rest| > 0 && AllDoiChars(rest);
      DoiShapeComplete(s, d, rest);
    }
  }

  /** The digit run of `d + t`, when `d` is all digits and `t` starts with a
      non-digit, is `d`. */
  lemma {:induction false} DigitRun(d: string, t: string)
    requires AllDigits(d) && |t| > 0 && !IsDigit(t[0])
    ensures LeadingDigits(d + t) == |d|
    decreases |d|
  {
    if |d| > 0 {
      DigitRun(d[1..], t);
      assert (d + t)[1..] == d[1..] + t;
    } else {
      assert d + t == t;
    }
  }

  /** A year and a month, with a dash between. */
  ghost predicate YearMonth(s: string) {
    exists y, m :: s == y + "-" + m && |y| == 4 && |m| == 2 && AllDigits(y) && AllDigits(m)
  }

  /** A year, a month and a day, with dashes between. */
  ghost predicate YearMonthDay(s: string) {
    exists y, m, d :: s == y + "-" + m + "-" + d && |y| == 4 && |m| == 2 && |d| == 2
                      && AllDigits(y) && AllDigits(m) && AllDigits(d)
  }

  /** An accepted seven-character date is a year and a month. */
  lemma YearMonthSound(s: string)
    requires |s| == 7 && MatchesDate(s)
    ensures YearMonth(s)
  {
    assert s == s[..4] + "-" + s[5..7];
  }

  /** A year and a month with a dash between is an accepted date. */
  lemma YearMonthComplete(s: string, y: string, m: string)
    requires s == y + "-" + m && |y| == 4 && |m| == 2 && AllDigits(y) && AllDigits(m)
    ensures |s| == 7 && MatchesDate(s)
  {
    assert s[..4] == y && s[5..7] == m;
  }

  /** A seven-character date is accepted exactly when it is a year and a month. */
  lemma YearMonthShape(s: string)
    ensures |s| == 7 && MatchesDate(s) <==> YearMonth(s)
  {
    if |s| == 7 && MatchesDate(s) {
      YearMonthSound(s);
    }
    if YearMonth(s) {
      var y, m :| s == y + "-" + m && |y| == 4 && |m| == 2 && AllDigits(y) && AllDigits(m);
      YearMonthComplete(s, y, m);
    }
  }

  /** An accepted ten-character date is a year, a month and a day. */
  lemma YearMonthDaySound(s: string)
    requires |s| == 10 && MatchesDate(s)
    ensures YearMonthDay(s)
  {
    var y, m, d := s[..4], s[5..7], s[8..10];
    assert s == y + "-" + m + "-" + d;
  }

  /** A year, a month and a day with dashes between is an accepted date. */
  lemma YearMonthDayComplete(s: string, y: string, m: string, d: string)
    requires s == y + "-" + m + "-" + d && |y| == 4 && |m| == 2 && |d| == 2
    requires AllDigits(y) && AllDigits(m) && AllDigits(d)
    ensures |s| == 10 && MatchesDate(s)
  {
    assert s[..4] == y;
    assert s[5..7] == m;
    assert s[8..10] == d;
  }

  /** A ten-character date is accepted exactly when it is a year, a month and
      a day. */
  lemma YearMonthDayShape(s: string)
    ensures |s| == 10 && MatchesDate(s) <==> YearMonthDay(s)
  {
    if |s| == 10 && MatchesDate(s) {
      YearMonthDaySound(s);
    }
    if YearMonthDay(s) {
      var y, m, d :| s == y + "-" + m + "-" + d && |y| == 4 && |m| == 2 && |d| == 2
                     && AllDigits(y) && AllDigits(m) && AllDigits(d);
      YearMonthDayComplete(s, y, m, d);
    }
  }

  /** The date pattern accepts exactly a year, a year and month, or a year,
      month and day, with dashes between. */
  lemma DateShape(s: string)
    ensures MatchesDate(s) <==> (|s| == 4 && AllDigits(s)) || YearMonth(s) || YearMonthDay(s)
  {
    YearMonthShape(s);
    YearMonthDayShape(s);
    if |s| == 4 {
      assert s[..4] == s;
    }
  }

  // ---------------------------------------------------------------------------
  // Checker and transform side by side

  /** The checker accepts a Yes/No token exactly when the transform can encode
      it. */
  lemma YesNoAgrees(env: CheckEnv, column: string, header: seq<string>, row: seq<string>, cell: string, b: Batch)
    requires column == "Add Coverpage (Y/N)" || column == "Make Public (Y/N)"
    requires CanLookUp("Upload ID", header, row)
    ensures CheckToken(env, column, header, row, cell, b).message.None? <==> Transform.YesNo(cell).Some?
  {
    YesNoColumnsAreStateless(column);
    assert CheckToken(env, column, header, row, cell, b).message == StatelessRule(env, column, header, row, cell, b.uploadIds);
  }

  lemma YesNoColumnsAreStateless(column: string)
    requires column == "Add Coverpage (Y/N)" || column == "Make Public (Y/N)"
    ensures column != "Parent Collection" && column != "PPI" && column != "Node ID"
    ensures column != "Upload ID" && column != TgnColumn
    ensures column != "Catalog or ArchivesSpace URL" && column != "Creation Date" && column != "Date Captured"
    ensures column != "Embargo Until Date" && column != "DOI" && column != "Page/Item Parent ID"
    ensures column != "Contributor" && column != "File Path" && column != "Supplemental File"
  {
  }

  /** A contributor the checker accepts has a name the transform can split,
      with a known relator and a vocabulary it resolves through the term
      service; resolving it never reports a badly formatted name, and a
      resolved value starts with that relator and vocabulary. */
  lemma AcceptedContributorResolves(svc: TermResolver.TermService, d: Decoded, st: TermResolver.ResolverState)
    requires ContributorRule(d).None?
    ensures var parts := NameParts(d.value);
      && |parts| >= 4
      && RelatorOf(parts) in ValidRelators
      && (parts[2] == "person" || parts[2] == "corporate_body")
      && var r := TermResolver.ResolveContributor(svc, d.value, st);
         (r.result.Err? ==> !r.result.error.PoorlyFormatted?)
         && (r.result.Ok? ==> RelatorOf(parts) + ":" + parts[2] + ":" <= r.result.value)
  {
  }
}
