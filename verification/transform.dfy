/** The spreadsheet-to-workbench transform: every non-empty cell of a column
    that the record type maps to a workbench column is split into tokens,
    each token is encoded for its column (vocabulary look-ups, rights
    statements, JSON templates, staging paths, ...), and the encoded tokens
    are joined with '|' into the workbench cell. */
module Transform {
  import opened Wrappers
  import opened GoStrings
  import opened GoStrconv
  import opened Contributors
  import opened JsonText
  import opened TermResolver
  import opened StagingPaths
  import Tgn

  /** One field of the spreadsheet record type: its raw `json` and `csv` struct
      tags, and whether reflection may set it. */
  datatype StructField = StructField(jsonTag: string, csvTag: string, settable: bool)

  /** Everything outside the transform it depends on: the record type's fields,
      the Drupal term service, the gazetteer, and the JSON decoder's verdict on a
      Contributor token. */
  datatype TransformEnv = TransformEnv(
    fields: seq<StructField>,
    terms: TermService,
    gazetteer: Tgn.Gazetteer,
    decodeContributor: string -> Decoded)

  /** State threaded through one upload: the term resolver, the TGN cache
      (token to encoded location) and the TGN URIs looked up, in order. */
  datatype EncState = EncState(resolver: ResolverState, tgnCache: map<string, string>, tgnLookups: seq<string>)

  const EmptyEncState := EncState(EmptyResolver, map[], [])

  datatype TransformError =
    | NoHeader
    | UnknownColumn(tag: string)
    | ContributorJson(token: string)
    | ContributorUnresolved(termError: TermError)
    | UnknownValue(tag: string, token: string)
    | UnknownTgn(token: string, tgnError: Tgn.TgnError)

  datatype Encoded<T> = Encoded(result: Result<T, TransformError>, state: EncState)

  /** A workbench row: each workbench column's cells, in the order written. */
  type Row = map<string, seq<string>>

  // ---------------------------------------------------------------------------
  // Struct tags

  /** `getJSONFieldName`: the tag's name, the part before its first comma. */
  function GetJSONFieldName(tag: string): (r: string)
    ensures r <= tag
    ensures ',' !in r
    ensures r == tag || tag[|r|] == ','
  {
    if |tag| == 0 || tag[0] == ',' then ""
    else [tag[0]] + GetJSONFieldName(tag[1..])
  }

  // ---------------------------------------------------------------------------
  // Per-column encodings

  /** Yes/No columns become 1/0. */
  function YesNo(token: string): (r: Option<string>)
    ensures r.Some? <==> token == "Yes" || token == "No"
    ensures r.Some? ==> (r.value == "1" <==> token == "Yes")
  {
    if token == "Yes" then Some("1") else if token == "No" then Some("0") else None
  }

  /** An upload id or parent id: one to four ASCII digits. */
  predicate IsShortId(token: string) {
    1 <= |token| <= 4 && AllDigits(token)
  }

  /** Rights statement phrases and their rightsstatements.org URIs. */
  const RightsTable: seq<(string, string)> := [
    ("IN COPYRIGHT", "http://rightsstatements.org/vocab/InC/1.0/"),
    ("IN COPYRIGHT - EU ORPHAN WORK", "http://rightsstatements.org/vocab/InC-OW-EU/1.0/"),
    ("IN COPYRIGHT - EDUCATIONAL USE PERMITTED", "http://rightsstatements.org/vocab/InC-EDU/1.0/"),
    ("IN COPYRIGHT - NON-COMMERCIAL USE PERMITTED", "http://rightsstatements.org/vocab/InC-NC/1.0/"),
    ("IN COPYRIGHT - RIGHTS-HOLDER(S) UNLOCATABLE OR UNIDENTIFIABLE", "http://rightsstatements.org/vocab/InC-RUU/1.0/"),
    ("NO COPYRIGHT - CONTRACTUAL RESTRICTIONS", "http://rightsstatements.org/vocab/NoC-CR/1.0/"),
    ("NO COPYRIGHT - NON-COMMERCIAL USE ONLY", "http://rightsstatements.org/vocab/NoC-NC/1.0/"),
    ("NO COPYRIGHT - OTHER KNOWN LEGAL RESTRICTIONS", "http://rightsstatements.org/vocab/NoC-OKLR/1.0/"),
    ("NO COPYRIGHT - UNITED STATES", "http://rightsstatements.org/vocab/NoC-US/1.0/"),
    ("COPYRIGHT NOT EVALUATED", "http://rightsstatements.org/vocab/CNE/1.0/"),
    ("COPYRIGHT UNDETERMINED", "http://rightsstatements.org/vocab/UND/1.0/"),
    ("NO KNOWN COPYRIGHT", "http://rightsstatements.org/vocab/NKC/1.0/")
  ]

  /** The entry of `table` whose key is `key`, the first if several are. */
  function Lookup2(table: seq<(string, string)>, key: string): (r: Option<string>)
    ensures r.None? <==> forall i :: 0 <= i < |table| ==> table[i].0 != key
    ensures r.Some? ==> exists i :: 0 <= i < |table| && table[i].0 == key && table[i].1 == r.value
  {
    if |table| == 0 then None
    else if table[0].0 == key then Some(table[0].1)
    else Lookup2(table[1..], key)
  }

  /** The rights URI of a phrase, if it is one of the twelve. */
  function RightsUri(phrase: string): Option<string> {
    Lookup2(RightsTable, phrase)
  }

  /** The `.attr0=` columns: the workbench field and the attribute value. */
  const Attr0Pairs: seq<(string, string)> := [
    ("field_extent", "page"), ("field_extent", "dimensions"), ("field_extent", "bytes"),
    ("field_extent", "minutes"), ("field_abstract", "description"), ("field_abstract", "abstract"),
    ("field_note", "preferred-citation"), ("field_note", "capture-device"), ("field_note", "ppi"),
    ("field_note", "collection"), ("field_note", "box"), ("field_note", "series"),
    ("field_note", "folder"), ("field_part_detail", "volume"), ("field_part_detail", "issue"),
    ("field_part_detail", "page"), ("field_identifier", "doi"), ("field_identifier", "uri"),
    ("field_identifier", "call-number"), ("field_identifier", "report-number")
  ]

  /** The `.vid=` columns: the workbench field and the vocabulary. */
  const VidPairs: seq<(string, string)> := [
    ("field_geographic_subject", "geographic_naf"), ("field_geographic_subject", "geographic_local")
  ]

  /** The pair `(field, value)` of `pairs` whose column name `field + sep + value` is `col`. */
  function FindPair(pairs: seq<(string, string)>, sep: string, col: string): (r: Option<(string, string)>)
    ensures r.None? <==> forall i :: 0 <= i < |pairs| ==> pairs[i].0 + sep + pairs[i].1 != col
    ensures r.Some? ==> r.value in pairs && r.value.0 + sep + r.value.1 == col
  {
    if |pairs| == 0 then None
    else if pairs[0].0 + sep + pairs[0].1 == col then Some(pairs[0])
    else FindPair(pairs[1..], sep, col)
  }

  /** No field or value in the two tables contains a '.', so splitting a column
      name at its separator gives back the pair. */
  lemma PairsDotFree()
    ensures forall i :: 0 <= i < |Attr0Pairs| ==> '.' !in Attr0Pairs[i].0 && '.' !in Attr0Pairs[i].1
    ensures forall i :: 0 <= i < |VidPairs| ==> '.' !in VidPairs[i].0 && '.' !in VidPairs[i].1
  {
  }

  /** The split components of a column found in a table are its pair. */
  lemma ComponentsOfPair(pairs: seq<(string, string)>, sep: string, col: string)
    requires |sep| > 0 && sep[0] == '.'
    requires forall i :: 0 <= i < |pairs| ==> '.' !in pairs[i].0 && '.' !in pairs[i].1
    requires FindPair(pairs, sep, col).Some?
    ensures Split(col, sep) == [FindPair(pairs, sep, col).value.0, FindPair(pairs, sep, col).value.1]
  {
    var p := FindPair(pairs, sep, col).value;
    SplitAround(p.0, sep, p.1);
  }

  /** The JSON template of an `.attr0=` column: part details are
      `{"number":..,"type":..}`, everything else `{"value":..,"attr0":..}`; the
      token is quoted by the hand-rolled escaping. */
  function Attr0Json(field: string, attr: string, token: string): string
  {
    var v := SlashQuoteEscape(token);
    if field == "field_part_detail" then "{\"number\":\"" + v + "\",\"type\":\"" + attr + "\"}"
    else "{\"value\":\"" + v + "\",\"attr0\":\"" + attr + "\"}"
  }

  /** The workbench column a spreadsheet column's cells are written to. */
  function TargetColumn(col: string): (r: string)
    ensures FindPair(Attr0Pairs, ".attr0=", col).None? && FindPair(VidPairs, ".vid=", col).None?
            && col != "field_related_item.title" && col != "field_related_item.identifier_type=issn"
            ==> r == col
    ensures FindPair(Attr0Pairs, ".attr0=", col).Some? ==> r == FindPair(Attr0Pairs, ".attr0=", col).value.0
    ensures FindPair(Attr0Pairs, ".attr0=", col).None? && FindPair(VidPairs, ".vid=", col).Some? ==>
      r == FindPair(VidPairs, ".vid=", col).value.0
    ensures FindPair(Attr0Pairs, ".attr0=", col).None? && FindPair(VidPairs, ".vid=", col).None?
            && (col == "field_related_item.title" || col == "field_related_item.identifier_type=issn")
            ==> r == "field_related_item"
  {
    match FindPair(Attr0Pairs, ".attr0=", col)
    case Some(p) =>
      PairsDotFree();
      ComponentsOfPair(Attr0Pairs, ".attr0=", col);
      Split(col, ".attr0=")[0]
    case None =>
      match FindPair(VidPairs, ".vid=", col)
      case Some(p) =>
        PairsDotFree();
        ComponentsOfPair(VidPairs, ".vid=", col);
        Split(col, ".vid=")[0]
      case None =>
        if col == "field_related_item.title" || col == "field_related_item.identifier_type=issn" then "field_related_item"
        else col
  }

  /** The cache holds, for each TGN token, the encoding of the location the
      gazetteer gives for it; the lookups are exactly the cached tokens, each
      once. */
  ghost predicate MemoSound(g: Tgn.Gazetteer, st: EncState) {
    && NoDuplicates(st.tgnLookups)
    && (forall i :: 0 <= i < |st.tgnLookups| ==> st.tgnLookups[i] in st.tgnCache)
    && (forall k :: k in st.tgnCache ==> k in st.tgnLookups)
    && (forall k :: k in st.tgnCache ==>
          Tgn.GetLocationFromTGN(g, k).Ok? && st.tgnCache[k] == MarshalLocation(Tgn.GetLocationFromTGN(g, k).value))
  }

  /** A hierarchical-geographic token: the cached encoding, or a gazetteer
      lookup whose location is encoded and cached. */
  function EncodeTgn(g: Tgn.Gazetteer, token: string, st: EncState): (r: Encoded<string>)
    ensures r.state.resolver == st.resolver
    ensures token in st.tgnCache ==> r == Encoded(Ok(st.tgnCache[token]), st)
    ensures token !in st.tgnCache && r.result.Ok? ==> r.state.tgnLookups == st.tgnLookups + [token]
    ensures token !in st.tgnCache ==> (r.result.Ok? <==> Tgn.GetLocationFromTGN(g, token).Ok?)
    ensures MemoSound(g, st) ==> (r.result.Ok? <==> Tgn.GetLocationFromTGN(g, token).Ok?)
    ensures MemoSound(g, st) && r.result.Ok? ==>
      ParseLocation(r.result.value) == Some(Tgn.GetLocationFromTGN(g, token).value)
    ensures MemoSound(g, st) && r.result.Ok? ==> MemoSound(g, r.state)
  {
    if token in st.tgnCache then
      CachedParses(g, st, token);
      Encoded(Ok(st.tgnCache[token]), st)
    else match Tgn.GetLocationFromTGN(g, token)
      case Err(e) => Encoded(Err(UnknownTgn(token, e)), st)
      case Ok(loc) =>
        ParseMarshalLocation(loc);
        var json := MarshalLocation(loc);
        var st' := st.(tgnCache := st.tgnCache[token := json], tgnLookups := st.tgnLookups + [token]);
        assert MemoSound(g, st) ==> MemoSound(g, st') by {
          if MemoSound(g, st) { MemoSoundAdd(g, st, token, json); }
        }
        Encoded(Ok(json), st.(tgnCache := st.tgnCache[token := json], tgnLookups := st.tgnLookups + [token]))
  }

  /** Caching a fresh token's encoded location keeps the cache sound. */
  lemma MemoSoundAdd(g: Tgn.Gazetteer, st: EncState, token: string, json: string)
    requires MemoSound(g, st) && token !in st.tgnCache
    requires Tgn.GetLocationFromTGN(g, token).Ok? && json == MarshalLocation(Tgn.GetLocationFromTGN(g, token).value)
    ensures MemoSound(g, st.(tgnCache := st.tgnCache[token := json], tgnLookups := st.tgnLookups + [token]))
  {
    var m, ls := st.tgnCache[token := json], st.tgnLookups + [token];
    LookupsAppend(st.tgnCache, st.tgnLookups, token, json);
    forall k | k in m
      ensures Tgn.GetLocationFromTGN(g, k).Ok? && m[k] == MarshalLocation(Tgn.GetLocationFromTGN(g, k).value)
    {
      if k != token { assert k in st.tgnCache; }
    }
    assert st.(tgnCache := m, tgnLookups := ls).tgnCache == m;
  }

  /** Recording a fresh key in both a map and its list of keys keeps the list
      duplicate-free and in step with the map. */
  lemma LookupsAppend<K, V>(m: map<K, V>, ls: seq<K>, k: K, v: V)
    requires NoDuplicates(ls) && k !in m
    requires forall i :: 0 <= i < |ls| ==> ls[i] in m
    requires forall x :: x in m ==> x in ls
    ensures NoDuplicates(ls + [k])
    ensures forall i :: 0 <= i < |ls + [k]| ==> (ls + [k])[i] in m[k := v]
    ensures forall x :: x in m[k := v] ==> x in ls + [k]
  {
    var ls' := ls + [k];
    forall i, j | 0 <= i < j < |ls'| ensures ls'[i] != ls'[j] {
      if j == |ls| { assert ls'[i] == ls[i]; }
    }
    forall i | 0 <= i < |ls'| ensures ls'[i] in m[k := v] {
      if i < |ls| { assert ls'[i] == ls[i]; }
    }
    forall x | x in m[k := v] ensures x in ls' {
      if x == k { assert ls'[|ls|] == x; }
    }
  }

  /** A cached TGN encoding parses back to the gazetteer's location. */
  lemma CachedParses(g: Tgn.Gazetteer, st: EncState, token: string)
    requires token in st.tgnCache
    ensures MemoSound(g, st) ==>
      Tgn.GetLocationFromTGN(g, token).Ok? && ParseLocation(st.tgnCache[token]) == Some(Tgn.GetLocationFromTGN(g, token).value)
  {
    if MemoSound(g, st) {
      ParseMarshalLocation(Tgn.GetLocationFromTGN(g, token).value);
    }
  }

  /** A Contributor token: decoded, then resolved to its term id form. */
  function EncodeContributor(env: TransformEnv, token: string, st: EncState): (r: Encoded<string>)
    ensures Grows(st.resolver, r.state.resolver)
    ensures r.state.tgnCache == st.tgnCache && r.state.tgnLookups == st.tgnLookups
    ensures !env.decodeContributor(token).ok ==> r == Encoded(Err(ContributorJson(token)), st)
    ensures env.decodeContributor(token).ok ==>
      var o := ResolveContributor(env.terms, env.decodeContributor(token).value, st.resolver);
      && r.state.resolver == o.state
      && (r.result.Ok? <==> o.result.Ok?)
      && (o.result.Ok? ==> r.result.value == o.result.value)
      && (o.result.Err? ==> r.result == Err(ContributorUnresolved(o.result.error)))
  {
    var d := env.decodeContributor(token);
    if !d.ok then Encoded(Err(ContributorJson(token)), st)
    else
      var o := ResolveContributor(env.terms, d.value, st.resolver);
      var st' := st.(resolver := o.state);
      match o.result
      case Err(e) => Encoded(Err(ContributorUnresolved(e)), st')
      case Ok(s) => Encoded(Ok(s), st')
  }

  /** The columns with an encoding of their own that is not a table of
      dotted names. */
  const PlainColumns := ["field_linked_agent", "field_add_coverpage", "published", "id", "parent_id",
                         "field_weight", "node_id", "field_subject_hierarchical_geo", "field_rights"]

  /** The encoding of a token of a plain column: contributors are resolved,
      Yes/No becomes 1/0, ids must be short, weights and node ids must be
      integers, TGN tokens become locations and rights phrases URIs. The
      column names are distinct, so the order of the tests does not matter. */
  function EncodePlain(env: TransformEnv, col: string, jsonTag: string, token: string, st: EncState): (r: Encoded<string>)
    requires col in PlainColumns
    ensures Grows(st.resolver, r.state.resolver)
    ensures col != "field_linked_agent" ==> r.state.resolver == st.resolver
    ensures col != "field_subject_hierarchical_geo" ==> r.state.tgnCache == st.tgnCache && r.state.tgnLookups == st.tgnLookups
    ensures MemoSound(env.gazetteer, st) && r.result.Ok? ==> MemoSound(env.gazetteer, r.state)
    ensures col == "field_linked_agent" ==> r == EncodeContributor(env, token, st)
    ensures col == "field_subject_hierarchical_geo" ==> r == EncodeTgn(env.gazetteer, token, st)
    ensures col != "field_linked_agent" && col != "field_subject_hierarchical_geo" ==>
      r == Encoded(EncodeValue(col, jsonTag, token), st)
  {
    if col == "field_linked_agent" then EncodeContributor(env, token, st)
    else if col == "field_subject_hierarchical_geo" then EncodeTgn(env.gazetteer, token, st)
    else Encoded(EncodeValue(col, jsonTag, token), st)
  }

  /** The plain columns whose encoding needs no lookup: Yes/No flags, short
      ids, weights and node ids, and rights statements. */
  function EncodeValue(col: string, jsonTag: string, token: string): (r: Result<string, TransformError>)
    ensures r.Err? ==> r.error == UnknownValue(jsonTag, token)
    ensures col == "id" || col == "parent_id" ==> (r.Ok? <==> IsShortId(token)) && (r.Ok? ==> r.value == token)
    ensures col == "field_weight" || col == "node_id" ==> (r.Ok? <==> Atoi(token).Some?)
    ensures (col == "field_weight" || col == "node_id") && r.Ok? ==>
      && |r.value| <= |token| && r.value == token[|token| - |r.value|..]
      && (forall k :: 0 <= k < |token| - |r.value| ==> token[k] == '0')
      && (|r.value| > 0 ==> r.value[0] != '0')
  {
    if col == "field_add_coverpage" || col == "published" then
      match YesNo(token)
      case None => Err(UnknownValue(jsonTag, token))
      case Some(v) => Ok(v)
    else if col == "id" || col == "parent_id" then
      if IsShortId(token) then Ok(token) else Err(UnknownValue(jsonTag, token))
    else if col == "field_weight" || col == "node_id" then EncodeInteger(jsonTag, token)
    else
      match RightsUri(token)
      case None => Err(UnknownValue(jsonTag, token))
      case Some(uri) => Ok(uri)
  }

  /** A weight or node id: an integer `Atoi` accepts, written without its
      leading '0' characters. */
  function EncodeInteger(jsonTag: string, token: string): (r: Result<string, TransformError>)
    ensures r.Err? ==> r.error == UnknownValue(jsonTag, token)
    ensures r.Ok? <==> Atoi(token).Some?
    ensures r.Ok? ==>
      && |r.value| <= |token| && r.value == token[|token| - |r.value|..]
      && (forall k :: 0 <= k < |token| - |r.value| ==> token[k] == '0')
      && (|r.value| > 0 ==> r.value[0] != '0')
  {
    if Atoi(token).None? then Err(UnknownValue(jsonTag, token))
    else Ok(TrimLeftChar(token, '0'))
  }

  /** The encoding of a token of any other column: the `.attr0=` and `.vid=`
      columns and the related item fill a template, files are placed in the
      staging area, and the rest pass through. None of these fail. */
  function EncodeTemplated(col: string, token: string): (r: string)
    ensures (&& FindPair(Attr0Pairs, ".attr0=", col).None? && FindPair(VidPairs, ".vid=", col).None?
             && col != "field_related_item.title" && col != "field_related_item.identifier_type=issn"
             && col != "file" && col != "supplemental_file") ==> r == token
    ensures FindPair(Attr0Pairs, ".attr0=", col).Some? ==>
      var p := FindPair(Attr0Pairs, ".attr0=", col).value;
      r == Attr0Json(p.0, p.1, token)
    ensures FindPair(Attr0Pairs, ".attr0=", col).None? && FindPair(VidPairs, ".vid=", col).Some? ==>
      r == FindPair(VidPairs, ".vid=", col).value.1 + ":" + token
    ensures FindPair(Attr0Pairs, ".attr0=", col).None? && FindPair(VidPairs, ".vid=", col).None? ==>
      && (col == "field_related_item.title" ==> r == "{\"title\": \"" + token + "\"}")
      && (col == "field_related_item.identifier_type=issn" ==>
            r == "{\"type\": \"issn\", \"identifier\": \"" + token + "\"}")
      && (col == "file" || col == "supplemental_file" ==> r == StagingPath(token))
  {
    match FindPair(Attr0Pairs, ".attr0=", col)
    case Some(_) =>
      PairsDotFree();
      ComponentsOfPair(Attr0Pairs, ".attr0=", col);
      var components := Split(col, ".attr0=");
      Attr0Json(components[0], components[1], token)
    case None =>
      match FindPair(VidPairs, ".vid=", col)
      case Some(_) =>
        PairsDotFree();
        ComponentsOfPair(VidPairs, ".vid=", col);
        var components := Split(col, ".vid=");
        components[1] + ":" + token
      case None =>
        if col == "field_related_item.title" then "{\"title\": \"" + token + "\"}"
        else if col == "field_related_item.identifier_type=issn" then
          "{\"type\": \"issn\", \"identifier\": \"" + token + "\"}"
        else if col == "file" || col == "supplemental_file" then StagingPath(token)
        else token
  }

  /** The encoding of one token for the column `col` (named `jsonTag` in the
      spreadsheet), before the final trim. */
  function EncodeRaw(env: TransformEnv, col: string, jsonTag: string, token: string, st: EncState): (r: Encoded<string>)
    ensures Grows(st.resolver, r.state.resolver)
    ensures col != "field_linked_agent" ==> r.state.resolver == st.resolver
    ensures col != "field_subject_hierarchical_geo" ==> r.state.tgnCache == st.tgnCache && r.state.tgnLookups == st.tgnLookups
    ensures MemoSound(env.gazetteer, st) && r.result.Ok? ==> MemoSound(env.gazetteer, r.state)
    ensures col in PlainColumns ==> r == EncodePlain(env, col, jsonTag, token, st)
    ensures col !in PlainColumns ==> r == Encoded(Ok(EncodeTemplated(col, token)), st)
  {
    if col in PlainColumns then EncodePlain(env, col, jsonTag, token, st)
    else Encoded(Ok(EncodeTemplated(col, token)), st)
  }

  /** One token, encoded and then trimmed. */
  function EncodeToken(env: TransformEnv, col: string, jsonTag: string, token: string, st: EncState): (r: Encoded<string>)
    ensures Grows(st.resolver, r.state.resolver)
    ensures MemoSound(env.gazetteer, st) && r.result.Ok? ==> MemoSound(env.gazetteer, r.state)
    ensures r.result.Ok? ==> TrimSpace(r.result.value) == r.result.value
  {
    var raw := EncodeRaw(env, col, jsonTag, token, st);
    match raw.result
    case Err(e) => raw
    case Ok(v) =>
      TrimSpaceIdempotent(v);
      Encoded(Ok(TrimSpace(v)), raw.state)
  }

  /** The tokens of one cell, encoded left to right; the first failure ends the
      cell. */
  function EncodeTokens(env: TransformEnv, col: string, jsonTag: string, tokens: seq<string>, st: EncState): (r: Encoded<seq<string>>)
    ensures Grows(st.resolver, r.state.resolver)
    ensures MemoSound(env.gazetteer, st) && r.result.Ok? ==> MemoSound(env.gazetteer, r.state)
    ensures r.result.Ok? ==> |r.result.value| == |tokens|
    decreases |tokens|
  {
    if |tokens| == 0 then Encoded(Ok([]), st)
    else
      var first := EncodeToken(env, col, jsonTag, tokens[0], st);
      match first.result
      case Err(e) => Encoded(Err(e), first.state)
      case Ok(v) =>
        var rest := EncodeTokens(env, col, jsonTag, tokens[1..], first.state);
        GrowsTransitive(st.resolver, first.state.resolver, rest.state.resolver);
        match rest.result
        case Err(e) => Encoded(Err(e), rest.state)
        case Ok(vs) => Encoded(Ok([v] + vs), rest.state)
  }

  /** `b` extends `a`: every column of `a` is in `b`, its cells a prefix of
      `b`'s. */
  predicate KeepsCells(a: Row, b: Row) {
    forall k :: k in a ==> k in b && a[k] <= b[k]
  }

  /** Appends one cell to a workbench column of a row. */
  function AppendCell(row: Row, column: string, cell: string): (r: Row)
    ensures r.Keys == row.Keys + {column}
    ensures forall k :: k in row && k != column ==> r[k] == row[k]
    ensures r[column] == (if column in row then row[column] else []) + [cell]
  {
    row[column := (if column in row then row[column] else []) + [cell]]
  }

  /** The row being built and the set of workbench columns written so far. */
  datatype Sheet = Sheet(headers: set<string>, row: Row)

  /** Appends a cell to a sheet's row and records its column as written. */
  function AddCell(sh: Sheet, column: string, cell: string): (r: Sheet)
    ensures r.row == AppendCell(sh.row, column, cell)
    ensures column in r.headers
    ensures sh.row.Keys <= sh.headers ==> sh.row.Keys <= r.row.Keys && r.headers == sh.headers + r.row.Keys
    ensures KeepsCells(sh.row, r.row)
  {
    Sheet(sh.headers + {column}, AppendCell(sh.row, column, cell))
  }

  lemma KeepsCellsTransitive(a: Row, b: Row, c: Row)
    requires KeepsCells(a, b) && KeepsCells(b, c)
    ensures KeepsCells(a, c)
  {
  }

  /** A non-empty cell of a mapped column: its tokens encoded, joined with '|'
      and appended to the column's workbench column. */
  function WriteCell(env: TransformEnv, col: string, jsonTag: string, cell: string, sh: Sheet, st: EncState): (r: Encoded<Sheet>)
    ensures Grows(st.resolver, r.state.resolver)
    ensures MemoSound(env.gazetteer, st) && r.result.Ok? ==> MemoSound(env.gazetteer, r.state)
    ensures sh.row.Keys <= sh.headers && r.result.Ok? ==>
      sh.row.Keys <= r.result.value.row.Keys && r.result.value.headers == sh.headers + r.result.value.row.Keys
    ensures r.result.Ok? ==> KeepsCells(sh.row, r.result.value.row)
    ensures var enc := EncodeTokens(env, col, jsonTag, Split(cell, " ; "), st);
      && r.state == enc.state
      && (r.result.Ok? <==> enc.result.Ok?)
      && (enc.result.Err? ==> r.result == Err(enc.result.error))
      && (enc.result.Ok? ==> r.result.value == AddCell(sh, TargetColumn(col), Join(enc.result.value, "|")))
  {
    var enc := EncodeTokens(env, col, jsonTag, Split(cell, " ; "), st);
    match enc.result
    case Err(e) => Encoded(Err(e), enc.state)
    case Ok(values) => Encoded(Ok(AddCell(sh, TargetColumn(col), Join(values, "|"))), enc.state)
  }

  /** One record field against one spreadsheet column: if the field's json name
      is the column, the field is settable and the cell non-empty, the cell's
      encoded tokens are joined with '|' and appended to the field's workbench
      column. A field without a csv name is an error. */
  function ApplyField(env: TransformEnv, f: StructField, header: string, cell: string, sh: Sheet, st: EncState): (r: Encoded<Sheet>)
    ensures Grows(st.resolver, r.state.resolver)
    ensures MemoSound(env.gazetteer, st) && r.result.Ok? ==> MemoSound(env.gazetteer, r.state)
    ensures sh.row.Keys <= sh.headers && r.result.Ok? ==>
      sh.row.Keys <= r.result.value.row.Keys && r.result.value.headers == sh.headers + r.result.value.row.Keys
    ensures cell == "" ==> r == Encoded(Ok(sh), st)
    ensures GetJSONFieldName(f.jsonTag) != header || !f.settable ==> r == Encoded(Ok(sh), st)
    ensures r.result.Ok? ==> KeepsCells(sh.row, r.result.value.row)
    ensures GetJSONFieldName(f.jsonTag) == header && f.settable && cell != "" && GetJSONFieldName(f.csvTag) == "" ==>
      r == Encoded(Err(UnknownColumn(header)), st)
    ensures GetJSONFieldName(f.jsonTag) == header && f.settable && cell != "" && GetJSONFieldName(f.csvTag) != "" ==>
      var col := GetJSONFieldName(f.csvTag);
      var enc := EncodeTokens(env, col, header, Split(cell, " ; "), st);
      && r.state == enc.state
      && (r.result.Ok? <==> enc.result.Ok?)
      && (enc.result.Err? ==> r.result == Err(enc.result.error))
      && (enc.result.Ok? ==> r.result.value == AddCell(sh, TargetColumn(col), Join(enc.result.value, "|")))
  {
    var jsonTag := GetJSONFieldName(f.jsonTag);
    if jsonTag != header || !f.settable || cell == "" then Encoded(Ok(sh), st)
    else
      var col := GetJSONFieldName(f.csvTag);
      if col == "" then Encoded(Err(UnknownColumn(jsonTag)), st)
      else WriteCell(env, col, jsonTag, cell, sh, st)
  }

  /** Every record field against one spreadsheet column, in field order. */
  function ApplyFields(env: TransformEnv, fields: seq<StructField>, header: string, cell: string, sh: Sheet, st: EncState): (r: Encoded<Sheet>)
    ensures Grows(st.resolver, r.state.resolver)
    ensures MemoSound(env.gazetteer, st) && r.result.Ok? ==> MemoSound(env.gazetteer, r.state)
    ensures sh.row.Keys <= sh.headers && r.result.Ok? ==>
      sh.row.Keys <= r.result.value.row.Keys && r.result.value.headers == sh.headers + r.result.value.row.Keys
    ensures r.result.Ok? ==> KeepsCells(sh.row, r.result.value.row)
    ensures (forall j :: 0 <= j < |fields| ==> GetJSONFieldName(fields[j].jsonTag) != header) ==> r == Encoded(Ok(sh), st)
    decreases |fields|
  {
    if |fields| == 0 then Encoded(Ok(sh), st)
    else
      var first := ApplyField(env, fields[0], header, cell, sh, st);
      match first.result
      case Err(e) => Encoded(Err(e), first.state)
      case Ok(sh1) =>
        var rest := ApplyFields(env, fields[1..], header, cell, sh1, first.state);
        GrowsTransitive(st.resolver, first.state.resolver, rest.state.resolver);
        match rest.result
        case Err(_) => rest
        case Ok(sh2) => KeepsCellsTransitive(sh.row, sh1.row, sh2.row); rest
  }

  /** Every spreadsheet column of one record, left to right. */
  function ApplyColumns(env: TransformEnv, headers: seq<string>, cells: seq<string>, sh: Sheet, st: EncState): (r: Encoded<Sheet>)
    requires |cells| == |headers|
    ensures Grows(st.resolver, r.state.resolver)
    ensures MemoSound(env.gazetteer, st) && r.result.Ok? ==> MemoSound(env.gazetteer, r.state)
    ensures sh.row.Keys <= sh.headers && r.result.Ok? ==>
      sh.row.Keys <= r.result.value.row.Keys && r.result.value.headers == sh.headers + r.result.value.row.Keys
    ensures r.result.Ok? ==> KeepsCells(sh.row, r.result.value.row)
    decreases |headers|
  {
    if |headers| == 0 then Encoded(Ok(sh), st)
    else
      var first := ApplyFields(env, env.fields, headers[0], cells[0], sh, st);
      match first.result
      case Err(e) => Encoded(Err(e), first.state)
      case Ok(sh1) =>
        var rest := ApplyColumns(env, headers[1..], cells[1..], sh1, first.state);
        GrowsTransitive(st.resolver, first.state.resolver, rest.state.resolver);
        match rest.result
        case Err(_) => rest
        case Ok(sh2) => KeepsCellsTransitive(sh.row, sh1.row, sh2.row); rest
  }

  /** The keys of every row. */
  function AllKeys(rows: seq<Row>): (r: set<string>)
    ensures forall k :: k in r <==> exists i :: 0 <= i < |rows| && k in rows[i]
  {
    if |rows| == 0 then {} else AllKeys(rows[..|rows| - 1]) + rows[|rows| - 1].Keys
  }

  /** The records after the header, up to (not including) the first whose
      width differs from the header's: the CSV reader reports that record as an
      error and the transform stops reading there. */
  function UsableRecords(width: nat, records: seq<seq<string>>): (r: seq<seq<string>>)
    ensures r <= records
    ensures forall i :: 0 <= i < |r| ==> |r[i]| == width
    ensures |r| < |records| ==> |records[|r|]| != width
  {
    if |records| == 0 || |records[0]| != width then []
    else [records[0]] + UsableRecords(width, records[1..])
  }

  /** The records turned into rows, in order, with the union of the columns
      written so far. */
  function ApplyRecords(env: TransformEnv, header: seq<string>, records: seq<seq<string>>,
                        acc: (set<string>, seq<Row>), st: EncState): (r: Encoded<(set<string>, seq<Row>)>)
    requires forall i :: 0 <= i < |records| ==> |records[i]| == |header|
    ensures Grows(st.resolver, r.state.resolver)
    ensures MemoSound(env.gazetteer, st) && r.result.Ok? ==> MemoSound(env.gazetteer, r.state)
    ensures acc.0 == AllKeys(acc.1) && r.result.Ok? ==>
      r.result.value.0 == AllKeys(r.result.value.1)
    ensures r.result.Ok? ==> |r.result.value.1| == |acc.1| + |records| && acc.1 <= r.result.value.1
    decreases |records|
  {
    if |records| == 0 then Encoded(Ok(acc), st)
    else
      var first := ApplyColumns(env, header, records[0], Sheet(acc.0, map[]), st);
      match first.result
      case Err(e) => Encoded(Err(e), first.state)
      case Ok(sh) =>
        var rows := acc.1 + [sh.row];
        var rest := ApplyRecords(env, header, records[1..], (sh.headers, rows), first.state);
        GrowsTransitive(st.resolver, first.state.resolver, rest.state.resolver);
        match rest.result
        case Err(_) => rest
        case Ok(v) => PrefixOfPrefix(acc.1, rows, v.1); rest
  }

  /** `readCSVWithJSONTags`: the first record is the header; an input without
      one is an error. The result is the set of workbench columns written and
      one row per usable record. */
  function ReadCsv(env: TransformEnv, csv: seq<seq<string>>): (r: Encoded<(set<string>, seq<Row>)>)
    ensures |csv| == 0 ==> r.result == Err(NoHeader)
    ensures r.result.Ok? ==> r.result.value.0 == AllKeys(r.result.value.1)
    ensures r.result.Ok? ==> |r.result.value.1| == |UsableRecords(|csv[0]|, csv[1..])|
    ensures r.result.Ok? ==> MemoSound(env.gazetteer, r.state)
    ensures Grows(EmptyResolver, r.state.resolver)
  {
    if |csv| == 0 then Encoded(Err(NoHeader), EmptyEncState)
    else
      var header := csv[0];
      EmptyMemoSound(env.gazetteer);
      ApplyRecords(env, header, UsableRecords(|header|, csv[1..]), ({}, []), EmptyEncState)
  }

  /** The transform starts from a sound, empty cache. */
  lemma EmptyMemoSound(g: Tgn.Gazetteer)
    ensures MemoSound(g, EmptyEncState)
  {
    assert EmptyEncState.tgnCache == map[] && EmptyEncState.tgnLookups == [];
  }

  /** The file the transform writes: an update sheet when a `node_id` column was
      written, a create sheet otherwise. */
  function TargetFile(headers: set<string>): (r: string)
    ensures r == "/tmp/target.update.csv" || r == "/tmp/target.csv"
    ensures r == "/tmp/target.update.csv" <==> "node_id" in headers
  {
    if "node_id" in headers then "/tmp/target.update.csv" else "/tmp/target.csv"
  }

  /** One output record for a header order: each column's cells joined with
      '|', an absent column written empty. */
  function OutputRecord(order: seq<string>, row: Row): (r: seq<string>)
    ensures |r| == |order|
    ensures forall k :: 0 <= k < |order| && order[k] !in row ==> r[k] == ""
    ensures forall k :: 0 <= k < |order| && order[k] in row ==> r[k] == Join(row[order[k]], "|")
  {
    seq(|order|, k requires 0 <= k < |order| => if order[k] in row then Join(row[order[k]], "|") else "")
  }

  // ---------------------------------------------------------------------------
  // Lemmas

  /** The rights phrase a rightsstatements.org URI stands for. */
  function RightsPhrase(uri: string): Option<string> {
    Lookup2(Swapped(RightsTable), uri)
  }

  /** A table read right to left. */
  function Swapped(table: seq<(string, string)>): (r: seq<(string, string)>)
    ensures |r| == |table|
    ensures forall i :: 0 <= i < |table| ==> r[i] == (table[i].1, table[i].0)
  {
    seq(|table|, i requires 0 <= i < |table| => (table[i].1, table[i].0))
  }

  /** Every accepted phrase is recovered from its URI, so distinct phrases get
      distinct URIs. */
  lemma RightsRoundTrip(phrase: string)
    ensures RightsUri(phrase).Some? ==> RightsPhrase(RightsUri(phrase).value) == Some(phrase)
  {
    if RightsUri(phrase).Some? {
      var uri := RightsUri(phrase).value;
      var i :| 0 <= i < |RightsTable| && RightsTable[i].0 == phrase && RightsTable[i].1 == uri;
      var swapped := Swapped(RightsTable);
      assert swapped[i].0 == uri;
      var j :| 0 <= j < |swapped| && swapped[j].0 == uri && swapped[j].1 == RightsPhrase(uri).value;
      RightsUrisDistinct();
      assert RightsTable[j].1 == uri;
    }
  }


  /** What tells the twelve URIs apart: their length and two of their letters. */
  function UriSignature(u: string): (int, char, char)
    requires |u| > 38
  {
    (|u|, u[34], u[38])
  }

  lemma RightsUrisDistinct()
    ensures forall i, j :: 0 <= i < |RightsTable| && 0 <= j < |RightsTable| && i != j ==> RightsTable[i].1 != RightsTable[j].1
  {
    var sigs := [(42, 'I', '1'), (48, 'I', 'O'), (46, 'I', 'E'), (45, 'I', 'N'), (46, 'I', 'R'), (45, 'N', 'C'),
                 (45, 'N', 'N'), (47, 'N', 'O'), (45, 'N', 'U'), (42, 'C', '1'), (42, 'U', '1'), (42, 'N', '1')];
    forall i | 0 <= i < |RightsTable|
      ensures |RightsTable[i].1| > 38 && UriSignature(RightsTable[i].1) == sigs[i]
    {
    }
    forall i, j | 0 <= i < |RightsTable| && 0 <= j < |RightsTable| && i != j
      ensures RightsTable[i].1 != RightsTable[j].1
    {
      assert sigs[i] != sigs[j];
    }
  }

  /** Stripping the leading zeros of a weight or node id keeps its value, except
      that zero itself becomes the empty string. */
  lemma WeightKeepsValue(token: string)
    requires |token| > 0 && AllDigits(token)
    ensures var t := TrimLeftChar(token, '0');
      && (t == "" <==> DigitsValue(token) == 0)
      && (t != "" ==> AllDigits(t) && DigitsValue(t) == DigitsValue(token) && t[0] != '0')
  {
    var t := TrimLeftChar(token, '0');
    var k := |token| - |t|;
    assert t == token[k..];
    StripZerosKeepsValue(token, k);
    if t == "" {
      assert DigitsValue(token) == DigitsValue(token[k..]);
    } else {
      assert t[0] != '0';
      LeadingDigitPositive(t);
    }
  }

  lemma LeadingDigitPositive(t: string)
    requires |t| > 0 && AllDigits(t) && t[0] != '0'
    ensures DigitsValue(t) > 0
  {
    ValueAtLeastFirst(t);
  }

  lemma {:induction false} ValueAtLeastFirst(t: string)
    requires |t| > 0 && AllDigits(t)
    ensures DigitsValue(t) >= DigitValue(t[0])
    decreases |t|
  {
    if |t| > 1 {
      ValueAtLeastFirst(t[..|t| - 1]);
    }
  }

  /** Outside `field_part_detail` an `.attr0=` template is the quoted token as
      the `value` member, followed by the `attr0` member. */
  lemma Attr0Layout(field: string, attr: string, token: string)
    requires field != "field_part_detail"
    ensures Attr0Json(field, attr, token)
      == "{" + ("\"value\":\"" + (SlashQuoteEscape(token) + "\"" + (",\"attr0\":\"" + attr + "\"}")))
  {
    ValueTemplateLayout(SlashQuoteEscape(token), attr);
  }

  lemma ValueTemplateLayout(v: string, attr: string)
    ensures "{\"value\":\"" + v + "\",\"attr0\":\"" + attr + "\"}"
      == "{" + ("\"value\":\"" + (v + "\"" + (",\"attr0\":\"" + attr + "\"}")))
  {
  }

  /** The value of an `.attr0=` template reads back as the token, as long as the
      token has no control character. */
  lemma Attr0ValueReadsBack(field: string, attr: string, token: string)
    requires field != "field_part_detail"
    requires forall k :: 0 <= k < |token| ==> !IsControl(token[k])
    ensures var j := Attr0Json(field, attr, token);
      |j| > 0 && j[0] == '{' && ReadMember("value", j[1..]) == Some((token, ",\"attr0\":\"" + attr + "\"}"))
  {
    var rest := ",\"attr0\":\"" + attr + "\"}";
    var j := Attr0Json(field, attr, token);
    var tail := SlashQuoteEscape(token) + "\"" + rest;
    Attr0Layout(field, attr, token);
    assert j[1..] == "\"value\":\"" + tail;
    ReadValueLead(tail);
    assert ReadString(tail) == Some((token, rest)) by {
      SlashQuoteIsPerChar(token);
      ReadSlashQuoted(token, rest);
    }
  }

  /** The related-item title is not escaped: a title containing a quote ends
      the JSON string early, so the title read back is not the title written. */
  lemma RelatedTitleUnescaped()
    ensures var j := "{\"title\": \"" + "a\"b" + "\"}";
      ReadString(j[11..]) == Some(("a", "b\"}"))
  {
    var j := "{\"title\": \"" + "a\"b" + "\"}";
    var t := j[11..];
    assert t == "a\"b\"}";
    assert t[0] == 'a' && !IsControl('a');
    assert t[1..] == "\"b\"}";
    assert ReadString(t[1..]) == Some(("", "b\"}"));
    assert ['a'] + "" == "a";
    assert ReadString(t) == Some((['a'] + "", "b\"}"));
  }

  /** A contributor cell is resolved against the term service, a
      geographic cell against the gazetteer, whatever the JSON tag. */
  lemma ResolvingColumns(env: TransformEnv, jsonTag: string, token: string, st: EncState)
    ensures EncodeRaw(env, "field_linked_agent", jsonTag, token, st) == EncodeContributor(env, token, st)
    ensures EncodeRaw(env, "field_subject_hierarchical_geo", jsonTag, token, st) == EncodeTgn(env.gazetteer, token, st)
  {
    assert "field_linked_agent" in PlainColumns;
    assert "field_subject_hierarchical_geo" in PlainColumns;
  }

  /** Yes/No columns accept exactly "Yes" and "No", as 1 and 0. */
  lemma YesNoColumn(env: TransformEnv, col: string, jsonTag: string, token: string, st: EncState)
    requires col == "field_add_coverpage" || col == "published"
    ensures var r := EncodeRaw(env, col, jsonTag, token, st);
      && r.state == st
      && (r.result.Ok? <==> token == "Yes" || token == "No")
      && (token == "Yes" ==> r.result == Ok("1"))
      && (token == "No" ==> r.result == Ok("0"))
      && (r.result.Err? ==> r.result.error == UnknownValue(jsonTag, token))
  {
  }

  /** A weight or node id must parse as an integer; its leading zeros are
      dropped, which keeps its value. */
  lemma WeightColumn(env: TransformEnv, col: string, jsonTag: string, token: string, st: EncState)
    requires col == "field_weight" || col == "node_id"
    ensures var r := EncodeRaw(env, col, jsonTag, token, st);
      && r.state == st
      && (r.result.Ok? <==> Atoi(token).Some?)
      && (r.result.Ok? && AllDigits(token) ==>
            (r.result.value == "" <==> DigitsValue(token) == 0)
            && (r.result.value != "" ==> AllDigits(r.result.value) && DigitsValue(r.result.value) == DigitsValue(token)))
      && (r.result.Ok? && !AllDigits(token) ==> r.result.value == token)
      && (r.result.Ok? && r.result.value != "" ==> Atoi(r.result.value) == Atoi(token))
  {
    assert col in PlainColumns;
    assert EncodeRaw(env, col, jsonTag, token, st) == Encoded(EncodeInteger(jsonTag, token), st);
    IntegerKeepsValue(jsonTag, token);
  }

  /** The integer encoding keeps the value `Atoi` reads. */
  lemma IntegerKeepsValue(jsonTag: string, token: string)
    ensures var r := EncodeInteger(jsonTag, token);
      && (r.Ok? && AllDigits(token) ==>
            (r.value == "" <==> DigitsValue(token) == 0)
            && (r.value != "" ==> AllDigits(r.value) && DigitsValue(r.value) == DigitsValue(token)))
      && (r.Ok? && !AllDigits(token) ==> r.value == token)
      && (r.Ok? && r.value != "" ==> Atoi(r.value) == Atoi(token))
  {
    if Atoi(token).Some? {
      if AllDigits(token) {
        WeightKeepsValue(token);
      } else {
        SignedKeepsSign(token);
      }
    }
  }

  /** A signed integer starts with its sign, so trimming zeros leaves it whole. */
  lemma SignedKeepsSign(token: string)
    requires Atoi(token).Some? && !AllDigits(token)
    ensures TrimLeftChar(token, '0') == token
  {
    assert token[0] == '+' || token[0] == '-';
  }

  /** A rights column maps each of the twelve phrases to its URI and refuses
      anything else; the phrase is recoverable from the URI. */
  lemma RightsColumn(env: TransformEnv, jsonTag: string, token: string, st: EncState)
    ensures var r := EncodeRaw(env, "field_rights", jsonTag, token, st);
      && r.state == st
      && (r.result.Ok? <==> exists i :: 0 <= i < |RightsTable| && RightsTable[i].0 == token)
      && (r.result.Ok? ==> RightsPhrase(r.result.value) == Some(token))
  {
    if RightsUri(token).Some? {
      RightsRoundTrip(token);
    }
  }

  /** A column name with a '.' in it is none of the plain columns. */
  lemma NotPlainColumn(col: string, k: nat)
    requires k < |col| && col[k] == '.'
    ensures forall n :: 0 <= n < |PlainColumns| ==> col != PlainColumns[n]
  {
    forall n | 0 <= n < |PlainColumns|
      ensures col != PlainColumns[n]
    {
      assert '.' !in PlainColumns[n];
    }
  }

  /** Every `.attr0=` column is written to its field, and its template's value
      reads back as the token. */
  lemma Attr0Column(env: TransformEnv, i: nat, jsonTag: string, token: string, st: EncState)
    requires i < |Attr0Pairs|
    requires forall k :: 0 <= k < |token| ==> !IsControl(token[k])
    ensures var col := Attr0Pairs[i].0 + ".attr0=" + Attr0Pairs[i].1;
      var r := EncodeRaw(env, col, jsonTag, token, st);
      && col !in PlainColumns
      && TargetColumn(col) == Attr0Pairs[i].0
      && r == Encoded(Ok(Attr0Json(Attr0Pairs[i].0, Attr0Pairs[i].1, token)), st)
      && (Attr0Pairs[i].0 != "field_part_detail" ==>
            ReadMember("value", r.result.value[1..]) == Some((token, ",\"attr0\":\"" + Attr0Pairs[i].1 + "\"}")))
  {
    var col := Attr0Pairs[i].0 + ".attr0=" + Attr0Pairs[i].1;
    PairsDotFree();
    NotPlainColumn(col, |Attr0Pairs[i].0|);
    assert FindPair(Attr0Pairs, ".attr0=", col).Some?;
    var p := FindPair(Attr0Pairs, ".attr0=", col).value;
    SplitAround(p.0, ".attr0=", p.1);
    SplitAround(Attr0Pairs[i].0, ".attr0=", Attr0Pairs[i].1);
    assert p == Attr0Pairs[i];
    if Attr0Pairs[i].0 != "field_part_detail" {
      Attr0ValueReadsBack(Attr0Pairs[i].0, Attr0Pairs[i].1, token);
    }
  }

  /** A token's encoding is its column's encoding, trimmed: it fails exactly
      when that fails, with the same error and state. */
  lemma EncodeTokenTrimsRaw(env: TransformEnv, col: string, jsonTag: string, token: string, st: EncState)
    ensures var r := EncodeToken(env, col, jsonTag, token, st);
      var raw := EncodeRaw(env, col, jsonTag, token, st);
      && r.state == raw.state
      && (r.result.Ok? <==> raw.result.Ok?)
      && (raw.result.Ok? ==> r.result.value == TrimSpace(raw.result.value))
      && (raw.result.Err? ==> r.result == raw.result)
  {
  }

  lemma PrefixOfPrefix<T>(a: seq<T>, b: seq<T>, c: seq<T>)
    requires a <= b && b <= c
    ensures a <= c && c[..|a|] == a
  {
  }

  /** A fail-fast encoding of a sequence, for any per-element step: each
      element is encoded in the state the elements before it leave, and the
      first failure ends it with that failure's error and state. */
  function MapFold<X, Y>(step: (X, EncState) -> Encoded<Y>, xs: seq<X>, st: EncState): (r: Encoded<seq<Y>>)
    decreases |xs|
  {
    if |xs| == 0 then Encoded(Ok([]), st)
    else
      var first := step(xs[0], st);
      match first.result
      case Err(e) => Encoded(Err(e), first.state)
      case Ok(y) =>
        var rest := MapFold(step, xs[1..], first.state);
        match rest.result
        case Err(e) => Encoded(Err(e), rest.state)
        case Ok(ys) => Encoded(Ok([y] + ys), rest.state)
  }

  /** Element `i` of a successful fold is the step applied to element `i` in
      the state the elements before it leave. */
  lemma {:induction false} MapFoldAt<X, Y>(step: (X, EncState) -> Encoded<Y>, xs: seq<X>, st: EncState, i: nat)
    requires i < |xs|
    ensures var whole := MapFold(step, xs, st);
      var before := MapFold(step, xs[..i], st);
      whole.result.Ok? ==>
        && before.result.Ok?
        && |whole.result.value| == |xs|
        && whole.result.value[..i] == before.result.value
        && step(xs[i], before.state).result == Ok(whole.result.value[i])
    decreases i
  {
    var whole := MapFold(step, xs, st);
    if whole.result.Ok? {
      var first := step(xs[0], st);
      MapFoldLength(step, xs[1..], first.state);
      if i > 0 {
        assert xs[..i][0] == xs[0];
        assert xs[..i][1..] == xs[1..][..i - 1];
        MapFoldAt(step, xs[1..], first.state, i - 1);
      } else {
        assert xs[..0] == [];
      }
    }
  }

  lemma {:induction false} MapFoldLength<X, Y>(step: (X, EncState) -> Encoded<Y>, xs: seq<X>, st: EncState)
    ensures MapFold(step, xs, st).result.Ok? ==> |MapFold(step, xs, st).result.value| == |xs|
    decreases |xs|
  {
    if |xs| > 0 {
      MapFoldLength(step, xs[1..], step(xs[0], st).state);
    }
  }

  /** The first element whose step fails ends the fold, with that step's error
      and state. */
  lemma {:induction false} MapFoldStop<X, Y>(step: (X, EncState) -> Encoded<Y>, xs: seq<X>, st: EncState, i: nat)
    requires i < |xs|
    ensures var before := MapFold(step, xs[..i], st);
      var failed := step(xs[i], before.state);
      before.result.Ok? && failed.result.Err? ==>
        MapFold(step, xs, st) == Encoded(Err(failed.result.error), failed.state)
    decreases i
  {
    var before := MapFold(step, xs[..i], st);
    if before.result.Ok? {
      if i > 0 {
        assert xs[..i][0] == xs[0];
        assert xs[..i][1..] == xs[1..][..i - 1];
        MapFoldStop(step, xs[1..], step(xs[0], st).state, i - 1);
      } else {
        assert xs[..0] == [];
      }
    }
  }

  /** Encoding a cell's tokens is the fail-fast fold of `EncodeToken`. */
  lemma {:induction false} EncodeTokensIsFold(env: TransformEnv, col: string, jsonTag: string, tokens: seq<string>, st: EncState)
    ensures EncodeTokens(env, col, jsonTag, tokens, st)
      == MapFold((t, s) => EncodeToken(env, col, jsonTag, t, s), tokens, st)
    decreases |tokens|
  {
    if |tokens| > 0 {
      EncodeTokensIsFold(env, col, jsonTag, tokens[1..], EncodeToken(env, col, jsonTag, tokens[0], st).state);
    }
  }

  /** Token `i` of a cell is encoded in the state the tokens before it leave,
      and its encoding is element `i` of the cell's values; the first token
      that fails ends the cell with its error and state. */
  lemma EncodeTokensAt(env: TransformEnv, col: string, jsonTag: string, tokens: seq<string>, st: EncState, i: nat)
    requires i < |tokens|
    ensures var whole := EncodeTokens(env, col, jsonTag, tokens, st);
      var before := EncodeTokens(env, col, jsonTag, tokens[..i], st);
      whole.result.Ok? ==>
        && before.result.Ok?
        && whole.result.value[..i] == before.result.value
        && EncodeToken(env, col, jsonTag, tokens[i], before.state).result == Ok(whole.result.value[i])
    ensures var before := EncodeTokens(env, col, jsonTag, tokens[..i], st);
      var failed := EncodeToken(env, col, jsonTag, tokens[i], before.state);
      before.result.Ok? && failed.result.Err? ==>
        EncodeTokens(env, col, jsonTag, tokens, st) == Encoded(Err(failed.result.error), failed.state)
  {
    var step := (t, s) => EncodeToken(env, col, jsonTag, t, s);
    EncodeTokensIsFold(env, col, jsonTag, tokens, st);
    EncodeTokensIsFold(env, col, jsonTag, tokens[..i], st);
    MapFoldAt(step, tokens, st, i);
    MapFoldStop(step, tokens, st, i);
  }

  /** When exactly one field of the record type is named after a spreadsheet
      column, the column is that field's alone. */
  lemma {:induction false} ApplyFieldsOnly(env: TransformEnv, fields: seq<StructField>, header: string, cell: string,
                                           sh: Sheet, st: EncState, j: nat)
    requires j < |fields|
    requires forall k :: 0 <= k < |fields| && k != j ==> GetJSONFieldName(fields[k].jsonTag) != header
    ensures ApplyFields(env, fields, header, cell, sh, st) == ApplyField(env, fields[j], header, cell, sh, st)
    decreases j
  {
    if j > 0 {
      assert ApplyField(env, fields[0], header, cell, sh, st) == Encoded(Ok(sh), st);
      ApplyFieldsOnly(env, fields[1..], header, cell, sh, st, j - 1);
    } else {
      var first := ApplyField(env, fields[0], header, cell, sh, st);
      if first.result.Ok? {
        assert forall k :: 0 <= k < |fields[1..]| ==> GetJSONFieldName(fields[1..][k].jsonTag) != header by {
          forall k | 0 <= k < |fields[1..]| ensures GetJSONFieldName(fields[1..][k].jsonTag) != header {
            assert fields[1..][k] == fields[k + 1];
          }
        }
      }
    }
  }

  /** A fail-fast left fold, for any step: each element is applied to the
      accumulator and state the elements before it leave, and the first
      failure ends it with that failure's error and state. */
  function Thread<X, A(!new)>(step: (X, A, EncState) --> Encoded<A>, xs: seq<X>, acc: A, st: EncState): (r: Encoded<A>)
    requires forall k, a, s :: 0 <= k < |xs| ==> step.requires(xs[k], a, s)
    decreases |xs|
  {
    if |xs| == 0 then Encoded(Ok(acc), st)
    else
      var first := step(xs[0], acc, st);
      match first.result
      case Err(e) => Encoded(Err(e), first.state)
      case Ok(a) => Thread(step, xs[1..], a, first.state)
  }

  /** A fold is its prefix's fold continued over the rest. */
  lemma {:induction false} ThreadSplit<X, A(!new)>(step: (X, A, EncState) --> Encoded<A>, xs: seq<X>, acc: A, st: EncState, i: nat)
    requires forall k, a, s :: 0 <= k < |xs| ==> step.requires(xs[k], a, s)
    requires i <= |xs|
    ensures forall k, a, s :: 0 <= k < |xs[..i]| ==> step.requires(xs[..i][k], a, s)
    ensures forall k, a, s :: 0 <= k < |xs[i..]| ==> step.requires(xs[i..][k], a, s)
    ensures var before := Thread(step, xs[..i], acc, st);
      Thread(step, xs, acc, st)
        == if before.result.Err? then before else Thread(step, xs[i..], before.result.value, before.state)
    decreases i
  {
    assert forall k :: 0 <= k < |xs[..i]| ==> xs[..i][k] == xs[k];
    assert forall k :: 0 <= k < |xs[i..]| ==> xs[i..][k] == xs[i + k];
    if i == 0 {
      assert xs[..0] == [] && xs[0..] == xs;
    } else {
      var first := step(xs[0], acc, st);
      assert xs[..i][0] == xs[0];
      assert xs[..i][1..] == xs[1..][..i - 1];
      assert xs[1..][i - 1..] == xs[i..];
      assert forall k :: 0 <= k < |xs[1..]| ==> xs[1..][k] == xs[k + 1];
      if first.result.Ok? {
        ThreadSplit(step, xs[1..], first.result.value, first.state, i - 1);
      }
    }
  }

  /** Element `i` is applied to the accumulator and state the elements
      before it leave. */
  lemma ThreadSnoc<X, A(!new)>(step: (X, A, EncState) --> Encoded<A>, xs: seq<X>, acc: A, st: EncState, i: nat)
    requires forall k, a, s :: 0 <= k < |xs| ==> step.requires(xs[k], a, s)
    requires i < |xs|
    ensures var before := Thread(step, xs[..i], acc, st);
      Thread(step, xs[..i + 1], acc, st)
        == if before.result.Err? then before else step(xs[i], before.result.value, before.state)
  {
    var ys := xs[..i + 1];
    assert forall k :: 0 <= k < |ys| ==> ys[k] == xs[k];
    ThreadSplit(step, ys, acc, st, i);
    assert ys[..i] == xs[..i] && ys[i..] == [xs[i]];
  }

  /** Pairs up two sequences of equal length. */
  function Zip<P, Q>(a: seq<P>, b: seq<Q>): (r: seq<(P, Q)>)
    requires |a| == |b|
    ensures |r| == |a|
    ensures forall k :: 0 <= k < |r| ==> r[k] == (a[k], b[k])
  {
    if |a| == 0 then [] else [(a[0], b[0])] + Zip(a[1..], b[1..])
  }

  lemma ZipSlices<P, Q>(a: seq<P>, b: seq<Q>, i: nat)
    requires |a| == |b| && i <= |a|
    ensures Zip(a, b)[..i] == Zip(a[..i], b[..i])
    ensures Zip(a, b)[i..] == Zip(a[i..], b[i..])
  {
  }

  /** One record's columns are the fold, over its (header, cell) pairs, of
      applying the record type's fields to each. */
  lemma {:induction false} ApplyColumnsIsThread(env: TransformEnv, headers: seq<string>, cells: seq<string>, sh: Sheet, st: EncState)
    requires |cells| == |headers|
    ensures ApplyColumns(env, headers, cells, sh, st)
      == Thread((hc: (string, string), sh': Sheet, s: EncState) => ApplyFields(env, env.fields, hc.0, hc.1, sh', s),
                Zip(headers, cells), sh, st)
    decreases |headers|
  {
    if |headers| > 0 {
      ZipSlices(headers, cells, 1);
      var first := ApplyFields(env, env.fields, headers[0], cells[0], sh, st);
      if first.result.Ok? {
        ApplyColumnsIsThread(env, headers[1..], cells[1..], first.result.value, first.state);
      }
    }
  }

  /** The columns of a record are applied left to right: column `i` is applied
      to the sheet the columns before it leave. */
  lemma ApplyColumnsSnoc(env: TransformEnv, headers: seq<string>, cells: seq<string>,
                         sh: Sheet, st: EncState, i: nat)
    requires |cells| == |headers| && i < |headers|
    ensures var before := ApplyColumns(env, headers[..i], cells[..i], sh, st);
      ApplyColumns(env, headers[..i + 1], cells[..i + 1], sh, st)
        == (if before.result.Err? then before
            else ApplyFields(env, env.fields, headers[i], cells[i], before.result.value, before.state))
  {
    var step := (hc: (string, string), sh': Sheet, s: EncState) => ApplyFields(env, env.fields, hc.0, hc.1, sh', s);
    ApplyColumnsIsThread(env, headers[..i], cells[..i], sh, st);
    ApplyColumnsIsThread(env, headers[..i + 1], cells[..i + 1], sh, st);
    ZipSlices(headers, cells, i);
    ZipSlices(headers, cells, i + 1);
    ThreadSnoc(step, Zip(headers, cells), sh, st, i);
  }

  /** The step that turns one record into a row. */
  function RecordStep(env: TransformEnv, header: seq<string>, record: seq<string>,
                      acc: (set<string>, seq<Row>), st: EncState): (r: Encoded<(set<string>, seq<Row>)>)
    requires |record| == |header|
    ensures r.state == ApplyColumns(env, header, record, Sheet(acc.0, map[]), st).state
    ensures r.result.Ok? <==> ApplyColumns(env, header, record, Sheet(acc.0, map[]), st).result.Ok?
    ensures r.result.Ok? ==>
      r.result.value == (ApplyColumns(env, header, record, Sheet(acc.0, map[]), st).result.value.headers,
                         acc.1 + [ApplyColumns(env, header, record, Sheet(acc.0, map[]), st).result.value.row])
  {
    var made := ApplyColumns(env, header, record, Sheet(acc.0, map[]), st);
    match made.result
    case Err(e) => Encoded(Err(e), made.state)
    case Ok(sh) => Encoded(Ok((sh.headers, acc.1 + [sh.row])), made.state)
  }

  /** The records are the fold of `RecordStep` over them. */
  lemma {:induction false} ApplyRecordsIsThread(env: TransformEnv, header: seq<string>, records: seq<seq<string>>,
                                                acc: (set<string>, seq<Row>), st: EncState)
    requires forall k :: 0 <= k < |records| ==> |records[k]| == |header|
    ensures ApplyRecords(env, header, records, acc, st)
      == Thread((rec: seq<string>, a: (set<string>, seq<Row>), s: EncState) requires |rec| == |header| => RecordStep(env, header, rec, a, s),
                records, acc, st)
    decreases |records|
  {
    if |records| > 0 {
      var first := RecordStep(env, header, records[0], acc, st);
      if first.result.Ok? {
        ApplyRecordsIsThread(env, header, records[1..], first.result.value, first.state);
      }
    }
  }

  /** The records up to `i` turned into rows, continued over the rest. */
  lemma ApplyRecordsSplit(env: TransformEnv, header: seq<string>, records: seq<seq<string>>,
                          acc: (set<string>, seq<Row>), st: EncState, i: nat)
    requires forall k :: 0 <= k < |records| ==> |records[k]| == |header|
    requires i <= |records|
    ensures var before := ApplyRecords(env, header, records[..i], acc, st);
      ApplyRecords(env, header, records, acc, st)
        == if before.result.Err? then before
           else ApplyRecords(env, header, records[i..], before.result.value, before.state)
  {
    var step := (rec: seq<string>, a: (set<string>, seq<Row>), s: EncState) requires |rec| == |header| => RecordStep(env, header, rec, a, s);
    ApplyRecordsIsThread(env, header, records, acc, st);
    ApplyRecordsIsThread(env, header, records[..i], acc, st);
    ThreadSplit(step, records, acc, st, i);
    var before := ApplyRecords(env, header, records[..i], acc, st);
    if before.result.Ok? {
      ApplyRecordsIsThread(env, header, records[i..], before.result.value, before.state);
    }
  }

  /** Record `i` is turned into a row with the columns and state the records
      before it leave. */
  lemma ApplyRecordsSnoc(env: TransformEnv, header: seq<string>, records: seq<seq<string>>,
                         acc: (set<string>, seq<Row>), st: EncState, i: nat)
    requires forall k :: 0 <= k < |records| ==> |records[k]| == |header|
    requires i < |records|
    ensures var before := ApplyRecords(env, header, records[..i], acc, st);
      ApplyRecords(env, header, records[..i + 1], acc, st)
        == if before.result.Err? then before
           else RecordStep(env, header, records[i], before.result.value, before.state)
  {
    var step := (rec: seq<string>, a: (set<string>, seq<Row>), s: EncState) requires |rec| == |header| => RecordStep(env, header, rec, a, s);
    ApplyRecordsIsThread(env, header, records[..i], acc, st);
    ApplyRecordsIsThread(env, header, records[..i + 1], acc, st);
    ThreadSnoc(step, records, acc, st, i);
  }

  /** Record `i` becomes row `i`: its columns applied to an empty row, with the
      columns and state the records before it leave. */
  lemma ApplyRecordsAt(env: TransformEnv, header: seq<string>, records: seq<seq<string>>,
                       acc: (set<string>, seq<Row>), st: EncState, i: nat)
    requires forall k :: 0 <= k < |records| ==> |records[k]| == |header|
    requires i < |records|
    ensures var whole := ApplyRecords(env, header, records, acc, st);
      var before := ApplyRecords(env, header, records[..i], acc, st);
      whole.result.Ok? ==>
        && before.result.Ok?
        && |before.result.value.1| == |acc.1| + i
        && whole.result.value.1[..|acc.1| + i] == before.result.value.1
        && var made := ApplyColumns(env, header, records[i], Sheet(before.result.value.0, map[]), before.state);
           made.result.Ok? && whole.result.value.1[|acc.1| + i] == made.result.value.row
  {
    var whole := ApplyRecords(env, header, records, acc, st);
    if whole.result.Ok? {
      ApplyRecordsPrefixOk(env, header, records, acc, st, i + 1);
      ApplyRecordsSnocRow(env, header, records, acc, st, i);
      var before := ApplyRecords(env, header, records[..i], acc, st).result.value.1;
      var upto := ApplyRecords(env, header, records[..i + 1], acc, st).result.value.1;
      SnocInPrefix(before, upto[|before|], upto, whole.result.value.1);
    }
  }

  /** An element appended to `b`, in a sequence the result is a prefix of,
      follows `b` there. */
  lemma SnocInPrefix<T>(b: seq<T>, x: T, u: seq<T>, w: seq<T>)
    requires u == b + [x] && u <= w
    ensures |b| < |w| && w[..|b|] == b && w[|b|] == x
  {
    assert w[..|b|] == u[..|b|];
  }

  /** When all the records succeed, so do the first `n`, and their rows come
      first. */
  lemma ApplyRecordsPrefixOk(env: TransformEnv, header: seq<string>, records: seq<seq<string>>,
                             acc: (set<string>, seq<Row>), st: EncState, n: nat)
    requires forall k :: 0 <= k < |records| ==> |records[k]| == |header|
    requires n <= |records|
    ensures var whole := ApplyRecords(env, header, records, acc, st);
      var upto := ApplyRecords(env, header, records[..n], acc, st);
      whole.result.Ok? ==> upto.result.Ok? && upto.result.value.1 <= whole.result.value.1
  {
    ApplyRecordsSplit(env, header, records, acc, st, n);
  }

  /** When the first `i + 1` records succeed, their rows are those of the first
      `i` and then record `i`'s columns applied to an empty row. */
  lemma ApplyRecordsSnocRow(env: TransformEnv, header: seq<string>, records: seq<seq<string>>,
                            acc: (set<string>, seq<Row>), st: EncState, i: nat)
    requires forall k :: 0 <= k < |records| ==> |records[k]| == |header|
    requires i < |records|
    ensures var before := ApplyRecords(env, header, records[..i], acc, st);
      var upto := ApplyRecords(env, header, records[..i + 1], acc, st);
      upto.result.Ok? ==>
        && before.result.Ok?
        && |before.result.value.1| == |acc.1| + i
        && var made := ApplyColumns(env, header, records[i], Sheet(before.result.value.0, map[]), before.state);
           made.result.Ok? && upto.result.value.1 == before.result.value.1 + [made.result.value.row]
  {
    ApplyRecordsSnoc(env, header, records, acc, st, i);
  }

  /** Row `i` of the transform is record `i + 1` of the input (the first one
      after the header) with its columns applied, in the state the rows before
      it leave. */
  lemma ReadCsvRow(env: TransformEnv, csv: seq<seq<string>>, i: nat)
    ensures var r := ReadCsv(env, csv);
      r.result.Ok? && i < |r.result.value.1| ==>
        var records := UsableRecords(|csv[0]|, csv[1..]);
        var before := ApplyRecords(env, csv[0], records[..i], ({}, []), EmptyEncState);
        && i < |records| && records[i] == csv[i + 1]
        && before.result.Ok?
        && var made := ApplyColumns(env, csv[0], records[i], Sheet(before.result.value.0, map[]), before.state);
           made.result.Ok? && r.result.value.1[i] == made.result.value.row
  {
    var r := ReadCsv(env, csv);
    if r.result.Ok? && i < |r.result.value.1| {
      var header := csv[0];
      var records := UsableRecords(|header|, csv[1..]);
      var acc: (set<string>, seq<Row>) := ({}, []);
      assert r == ApplyRecords(env, header, records, acc, EmptyEncState);
      assert i < |records| && records[i] == csv[i + 1] by { assert records[i] == csv[1..][i]; }
      ApplyRecordsAt(env, header, records, acc, EmptyEncState, i);
      assert |acc.1| + i == i;
    }
  }

  /** The transform writes an update sheet exactly when some row has a node id. */
  lemma UpdateSheetIffNodeIds(env: TransformEnv, csv: seq<seq<string>>)
    ensures var r := ReadCsv(env, csv);
      r.result.Ok? ==>
        (TargetFile(r.result.value.0) == "/tmp/target.update.csv"
         <==> exists i :: 0 <= i < |r.result.value.1| && "node_id" in r.result.value.1[i])
  {
  }

  /** Each output cell splits at '|' back into the cells of its column, as long
      as the column has cells and none contains '|'; an absent column is written
      empty. */
  lemma OutputRecordReadsBack(order: seq<string>, row: Row, k: nat)
    requires k < |order|
    ensures var rec := OutputRecord(order, row);
      && (order[k] !in row ==> rec[k] == "")
      && (order[k] in row && |row[order[k]]| > 0 && (forall j :: 0 <= j < |row[order[k]]| ==> '|' !in row[order[k]][j])
          ==> Split(rec[k], "|") == row[order[k]])
  {
    if order[k] in row && |row[order[k]]| > 0 && (forall j :: 0 <= j < |row[order[k]]| ==> '|' !in row[order[k]][j]) {
      SplitJoin(row[order[k]], "|");
    }
  }

  /** A column with no '.' among its first `n` characters is not the column of
      any pair whose field is shorter than `n`: that column has a '.' right
      after the field. */
  lemma NoPairColumn(pairs: seq<(string, string)>, sep: string, col: string, n: nat)
    requires |sep| > 0 && sep[0] == '.'
    requires forall k :: 0 <= k < |pairs| ==> |pairs[k].0| < n
    requires n <= |col| && '.' !in col[..n]
    ensures FindPair(pairs, sep, col).None?
  {
    forall k | 0 <= k < |pairs|
      ensures pairs[k].0 + sep + pairs[k].1 != col
    {
      var f := pairs[k].0;
      assert (f + sep + pairs[k].1)[|f|] == '.';
      assert col[|f|] == col[..n][|f|];
    }
  }

  /** A column with a '.' at position `m` is not the column of any pair whose
      field is longer than `m` and has no '.' there. */
  lemma NoLongerPairColumn(pairs: seq<(string, string)>, sep: string, col: string, m: nat)
    requires m < |col| && col[m] == '.'
    requires forall k :: 0 <= k < |pairs| ==> m < |pairs[k].0| && pairs[k].0[m] != '.'
    ensures FindPair(pairs, sep, col).None?
  {
    forall k | 0 <= k < |pairs|
      ensures pairs[k].0 + sep + pairs[k].1 != col
    {
      assert (pairs[k].0 + sep + pairs[k].1)[m] == pairs[k].0[m];
    }
  }

  /** Every `.attr0=` field name is shorter than eighteen characters. */
  lemma Attr0FieldsShort()
    ensures forall k :: 0 <= k < |Attr0Pairs| ==> |Attr0Pairs[k].0| < 18
  {
  }

  /** Every `.vid=` column is written to its field as "vocabulary:token". */
  lemma VidColumn(env: TransformEnv, i: nat, jsonTag: string, token: string, st: EncState)
    requires i < |VidPairs|
    ensures var col := VidPairs[i].0 + ".vid=" + VidPairs[i].1;
      && col !in PlainColumns
      && TargetColumn(col) == VidPairs[i].0
      && EncodeRaw(env, col, jsonTag, token, st) == Encoded(Ok(VidPairs[i].1 + ":" + token), st)
  {
    var col := VidPairs[i].0 + ".vid=" + VidPairs[i].1;
    PairsDotFree();
    NotPlainColumn(col, |VidPairs[i].0|);
    Attr0FieldsShort();
    assert col[..18] == VidPairs[i].0[..18];
    NoPairColumn(Attr0Pairs, ".attr0=", col, 18);
    assert FindPair(VidPairs, ".vid=", col).Some?;
    var p := FindPair(VidPairs, ".vid=", col).value;
    SplitAround(p.0, ".vid=", p.1);
    SplitAround(VidPairs[i].0, ".vid=", VidPairs[i].1);
    assert p == VidPairs[i];
  }

  /** The related item's title and ISSN columns are in neither table. */
  lemma RelatedItemNotPaired(col: string)
    requires col == "field_related_item.title" || col == "field_related_item.identifier_type=issn"
    ensures FindPair(Attr0Pairs, ".attr0=", col).None? && FindPair(VidPairs, ".vid=", col).None?
    ensures col !in PlainColumns
  {
    assert col[..18] == "field_related_item" && col[18] == '.';
    RelatedNotAttr0(col);
    RelatedNotVid(col);
    NotPlainColumn(col, 18);
  }

  /** A column whose first '.' is at position 18, as in "field_related_item.",
      is no `.attr0=` column: every attr0 field is shorter. */
  lemma RelatedNotAttr0(col: string)
    requires 18 < |col| && '.' !in col[..18]
    ensures FindPair(Attr0Pairs, ".attr0=", col).None?
  {
    Attr0FieldsShort();
    NoPairColumn(Attr0Pairs, ".attr0=", col, 18);
  }

  /** A column with a '.' at position 18 is no `.vid=` column: every vid field
      is longer and has no '.'. */
  lemma RelatedNotVid(col: string)
    requires 18 < |col| && col[18] == '.'
    ensures FindPair(VidPairs, ".vid=", col).None?
  {
    PairsDotFree();
    assert forall k :: 0 <= k < |VidPairs| ==> |VidPairs[k].0| == 24;
    NoLongerPairColumn(VidPairs, ".vid=", col, 18);
  }

  /** The related item's title and ISSN columns both write the
      `field_related_item` column, each with its own JSON template. */
  lemma RelatedItemColumns(env: TransformEnv, jsonTag: string, token: string, st: EncState)
    ensures TargetColumn("field_related_item.title") == "field_related_item"
    ensures TargetColumn("field_related_item.identifier_type=issn") == "field_related_item"
    ensures EncodeRaw(env, "field_related_item.title", jsonTag, token, st)
      == Encoded(Ok("{\"title\": \"" + token + "\"}"), st)
    ensures EncodeRaw(env, "field_related_item.identifier_type=issn", jsonTag, token, st)
      == Encoded(Ok("{\"type\": \"issn\", \"identifier\": \"" + token + "\"}"), st)
  {
    RelatedTitleColumn(env, jsonTag, token, st);
    RelatedIssnColumn(env, jsonTag, token, st);
  }

  lemma RelatedTitleColumn(env: TransformEnv, jsonTag: string, token: string, st: EncState)
    ensures TargetColumn("field_related_item.title") == "field_related_item"
    ensures EncodeRaw(env, "field_related_item.title", jsonTag, token, st)
      == Encoded(Ok("{\"title\": \"" + token + "\"}"), st)
  {
    RelatedItemNotPaired("field_related_item.title");
  }

  lemma RelatedIssnColumn(env: TransformEnv, jsonTag: string, token: string, st: EncState)
    ensures TargetColumn("field_related_item.identifier_type=issn") == "field_related_item"
    ensures EncodeRaw(env, "field_related_item.identifier_type=issn", jsonTag, token, st)
      == Encoded(Ok("{\"type\": \"issn\", \"identifier\": \"" + token + "\"}"), st)
  {
    RelatedItemNotPaired("field_related_item.identifier_type=issn");
  }

  /** An id the pattern accepts is a number below 10000, and `Atoi` reads it
      as that number. */
  lemma ShortIdValue(token: string)
    requires IsShortId(token)
    ensures DigitsValue(token) < 10000
    ensures Atoi(token) == Some(DigitsValue(token) as int)
  {
    DigitsBelowPow10(token);
    assert Pow10(|token|) <= 10000 by {
      assert Pow10(1) == 10 && Pow10(2) == 100 && Pow10(3) == 1000 && Pow10(4) == 10000;
    }
  }

  lemma ShortIdExamples()
    ensures IsShortId("1234") && !IsShortId("10000") && !IsShortId("") && !IsShortId("12a")
  {
    assert "12a"[2] == 'a' && !IsDigit('a');
    assert forall k :: 0 <= k < 4 ==> IsDigit("1234"[k]);
  }
}
