/** The Drupal term resolver the transform uses for Contributor cells: a person
    or corporate body named in the cell is looked up by name (and, for people,
    by one identifying attribute), created when missing, and replaced by its
    term id. Successful answers are cached for the rest of the upload, keyed
    case-insensitively. */
module TermResolver {
  import opened Wrappers
  import opened GoStrings
  import opened GoStrconv
  import opened Contributors

  /** The attribute a person lookup adds to name and vocabulary. */
  datatype Discriminator =
    | NoDiscriminator
    | ByEmail(email: string)
    | ByOrcid(orcid: string)
    | ByWorksFor(institutionId: int)

  /** The query parameters of one `term_from_term_name` request. */
  datatype LookupQuery = LookupQuery(name: string, vocab: string, filter: Discriminator)

  /** The members of the JSON body of a term creation; an absent optional
      member is left out of the body. */
  datatype TermPayload = TermPayload(
    vocab: string,
    name: string,
    email: Option<string>,
    orcid: Option<string>,
    worksFor: Option<int>)

  /** One decoded term: the texts of the numbers in its `tid[*].value`. */
  datatype TermEntry = TermEntry(tids: seq<string>)

  /** What a response body decodes to: an array of terms, a single term, or
      something that is neither. */
  datatype ResponseBody = TermArray(entries: seq<TermEntry>) | TermObject(entry: TermEntry) | Undecodable

  /** The outcome of one HTTP round trip; `TransportFailure` covers a request
      that could not be sent or a body that could not be read. */
  datatype HttpReply = TransportFailure | Reply(status: int, body: ResponseBody)

  /** The Drupal site as the resolver sees it: the configured password and what
      each lookup and each creation returns. */
  datatype TermService = TermService(
    password: string,
    lookup: LookupQuery -> HttpReply,
    create: TermPayload -> HttpReply)

  datatype RemoteCall = LookupCall(query: LookupQuery) | CreateCall(payload: TermPayload)

  /** The resolver's caches and the log of the requests it has sent. */
  datatype ResolverState = ResolverState(
    people: map<string, int>,
    institutions: map<string, int>,
    calls: seq<RemoteCall>)

  const EmptyResolver := ResolverState(map[], map[], [])

  datatype TermError =
    | PoorlyFormatted(name: string)
    | RequestFailed
    | LookupStatus(status: int)
    | CreateStatus(status: int)
    | BadBody
    | BadTermId(text: string)
    | NoPassword(name: string)
    | NoTermId

  datatype Lookup = Found(tid: int) | NotFound

  /** A result together with the resolver state after computing it. */
  datatype Outcome<T> = Outcome(result: Result<T, TermError>, state: ResolverState)

  /** Caches only gain entries, an entry never changes, and the request log only
      grows at its end. */
  predicate Grows(a: ResolverState, b: ResolverState) {
    && a.calls <= b.calls
    && (forall k :: k in a.people ==> k in b.people && b.people[k] == a.people[k])
    && (forall k :: k in a.institutions ==> k in b.institutions && b.institutions[k] == a.institutions[k])
  }

  lemma GrowsTransitive(a: ResolverState, b: ResolverState, c: ResolverState)
    requires Grows(a, b) && Grows(b, c)
    ensures Grows(a, c)
  {
  }

  function IsSuccess(status: int): bool {
    200 <= status <= 299
  }

  // ---------------------------------------------------------------------------
  // Response bodies

  /** `termIDFromResponse`: the first tid of a term, if it has one. */
  function TermIdFromEntry(e: TermEntry): (r: Result<Lookup, TermError>)
    ensures |e.tids| == 0 ==> r == Ok(NotFound)
    ensures |e.tids| > 0 ==> (r.Ok? <==> Atoi(e.tids[0]).Some?)
    ensures r.Ok? && r.value.Found? ==> Atoi(e.tids[0]) == Some(r.value.tid)
  {
    if |e.tids| == 0 then Ok(NotFound)
    else match Atoi(e.tids[0])
      case None => Err(BadTermId(e.tids[0]))
      case Some(n) => Ok(Found(n))
  }

  /** `getTermIDFromBody`: an array is read through its first term (an empty
      array means "not found"), a single term directly. */
  function GetTermIdFromBody(body: ResponseBody): (r: Result<Lookup, TermError>)
    ensures body.Undecodable? ==> r == Err(BadBody)
    ensures body.TermArray? && |body.entries| == 0 ==> r == Ok(NotFound)
    ensures body.TermArray? && |body.entries| > 0 ==> r == TermIdFromEntry(body.entries[0])
    ensures body.TermObject? ==> r == TermIdFromEntry(body.entry)
  {
    match body
    case Undecodable => Err(BadBody)
    case TermArray(entries) => if |entries| == 0 then Ok(NotFound) else TermIdFromEntry(entries[0])
    case TermObject(entry) => TermIdFromEntry(entry)
  }

  /** A term id written in decimal is read back, in either body shape, and only
      the first term and its first tid count. */
  lemma TermIdRoundTrip(n: int, more: seq<string>, others: seq<TermEntry>)
    requires MinInt64 <= n <= MaxInt64
    ensures GetTermIdFromBody(TermArray([TermEntry([Itoa(n)] + more)] + others)) == Ok(Found(n))
    ensures GetTermIdFromBody(TermObject(TermEntry([Itoa(n)] + more))) == Ok(Found(n))
  {
    AtoiItoa(n);
  }

  // ---------------------------------------------------------------------------
  // Remote operations

  /** `lookupTerm`: one GET; any status outside 2xx is an error. */
  function LookupTerm(svc: TermService, q: LookupQuery, st: ResolverState): (r: Outcome<Lookup>)
    ensures r.state == st.(calls := st.calls + [LookupCall(q)])
    ensures r.result.Err? ==> !r.result.error.PoorlyFormatted?
    ensures r.result.Ok? <==> svc.lookup(q).Reply? && IsSuccess(svc.lookup(q).status)
                              && GetTermIdFromBody(svc.lookup(q).body).Ok?
    ensures r.result.Ok? ==> r.result.value == GetTermIdFromBody(svc.lookup(q).body).value
  {
    var st' := st.(calls := st.calls + [LookupCall(q)]);
    match svc.lookup(q)
    case TransportFailure => Outcome(Err(RequestFailed), st')
    case Reply(status, body) =>
      if !IsSuccess(status) then Outcome(Err(LookupStatus(status)), st')
      else Outcome(GetTermIdFromBody(body), st')
  }

  /** The body `createTerm` posts: e-mail and ORCID only when non-empty, the
      employer only when its id is positive. */
  function Payload(vocab: string, name: string, email: string, orcid: string, institutionId: int): (p: TermPayload)
    ensures p.vocab == vocab && p.name == name
    ensures p.email.Some? <==> email != ""
    ensures p.email.Some? ==> p.email.value == email
    ensures p.orcid.Some? <==> orcid != ""
    ensures p.orcid.Some? ==> p.orcid.value == orcid
    ensures p.worksFor.Some? <==> institutionId > 0
    ensures p.worksFor.Some? ==> p.worksFor.value == institutionId
  {
    TermPayload(vocab, name,
      if email != "" then Some(email) else None,
      if orcid != "" then Some(orcid) else None,
      if institutionId > 0 then Some(institutionId) else None)
  }

  /** `createTerm`: refused without a password, before any request is sent; a
      created term must come back with a tid. */
  function CreateTerm(svc: TermService, vocab: string, name: string, email: string, orcid: string,
                      institutionId: int, st: ResolverState): (r: Outcome<int>)
    ensures svc.password == "" ==> r == Outcome(Err(NoPassword(name)), st)
    ensures r.result.Err? ==> !r.result.error.PoorlyFormatted?
    ensures svc.password != "" ==>
      r.state == st.(calls := st.calls + [CreateCall(Payload(vocab, name, email, orcid, institutionId))])
    ensures r.result.Ok? ==>
      var reply := svc.create(Payload(vocab, name, email, orcid, institutionId));
      reply.Reply? && IsSuccess(reply.status) && GetTermIdFromBody(reply.body) == Ok(Found(r.result.value))
    ensures svc.password != "" ==>
      forall tid :: Answers(svc.create(Payload(vocab, name, email, orcid, institutionId)), Found(tid)) ==> r.result == Ok(tid)
  {
    if svc.password == "" then Outcome(Err(NoPassword(name)), st)
    else
      var p := Payload(vocab, name, email, orcid, institutionId);
      var st' := st.(calls := st.calls + [CreateCall(p)]);
      match svc.create(p)
      case TransportFailure => Outcome(Err(RequestFailed), st')
      case Reply(status, body) =>
        if !IsSuccess(status) then Outcome(Err(CreateStatus(status)), st')
        else match GetTermIdFromBody(body)
          case Err(e) => Outcome(Err(e), st')
          case Ok(NotFound) => Outcome(Err(NoTermId), st')
          case Ok(Found(tid)) => Outcome(Ok(tid), st')
  }

  /** A lookup succeeds with `l` exactly when the site answers `l`. */
  lemma LookupAnswers(svc: TermService, q: LookupQuery, st: ResolverState)
    ensures forall l :: LookupTerm(svc, q, st).result == Ok(l) <==> Answers(svc.lookup(q), l)
  {
  }

  /** `reply` is a 2xx response whose body reads as `l`. */
  predicate Answers(reply: HttpReply, l: Lookup) {
    reply.Reply? && IsSuccess(reply.status) && GetTermIdFromBody(reply.body) == Ok(l)
  }

  /** Where a resolved id may come from: the lookup `q` finds the term, or it
      finds nothing and creating the term from `p` (with a password) returns
      the id. */
  predicate SiteGives(svc: TermService, q: LookupQuery, p: TermPayload, tid: int) {
    || Answers(svc.lookup(q), Found(tid))
    || (Answers(svc.lookup(q), NotFound) && svc.password != "" && Answers(svc.create(p), Found(tid)))
  }

  // ---------------------------------------------------------------------------
  // Institutions

  /** The institution cache key: the name trimmed and lower-cased. */
  function InstitutionKey(name: string): string {
    ToLower(TrimSpace(name))
  }

  /** The lookup that finds an institution, and the payload that creates it. */
  function InstitutionQuery(name: string): LookupQuery {
    LookupQuery(name, "corporate_body", NoDiscriminator)
  }

  function InstitutionPayload(name: string): TermPayload {
    Payload("corporate_body", name, "", "", 0)
  }

  /** The uncached half of `ensureInstitution`: a lookup in `corporate_body`
      and, when nothing is found, a new term. Only the request log changes. */
  function FindOrCreateInstitution(svc: TermService, name: string, st: ResolverState): (r: Outcome<int>)
    ensures r.state == st.(calls := r.state.calls)
    ensures st.calls <= r.state.calls
    ensures r.result.Err? ==> !r.result.error.PoorlyFormatted?
    ensures |r.state.calls| > |st.calls| && r.state.calls[|st.calls|] == LookupCall(LookupQuery(name, "corporate_body", NoDiscriminator))
    ensures svc.password == "" ==> r.state.calls == st.calls + [LookupCall(LookupQuery(name, "corporate_body", NoDiscriminator))]
    ensures r.result.Ok? ==> SiteGives(svc, InstitutionQuery(name), InstitutionPayload(name), r.result.value)
    ensures forall tid :: SiteGives(svc, InstitutionQuery(name), InstitutionPayload(name), tid) ==> r.result == Ok(tid)
  {
    var looked := LookupTerm(svc, LookupQuery(name, "corporate_body", NoDiscriminator), st);
    match looked.result
    case Err(e) => Outcome(Err(e), looked.state)
    case Ok(Found(tid)) => Outcome(Ok(tid), looked.state)
    case Ok(NotFound) => CreateTerm(svc, "corporate_body", name, "", "", 0, looked.state)
  }

  /** `ensureInstitution`: the cached id, or a lookup in `corporate_body`,
      or a new term; only a success is cached. */
  function EnsureInstitution(svc: TermService, name: string, st: ResolverState): (r: Outcome<int>)
    ensures Grows(st, r.state)
    ensures r.result.Err? ==> !r.result.error.PoorlyFormatted?
    ensures r.state.people == st.people
    ensures InstitutionKey(name) in st.institutions ==>
      r == Outcome(Ok(st.institutions[InstitutionKey(name)]), st)
    ensures r.result.Ok? ==>
      InstitutionKey(name) in r.state.institutions && r.state.institutions[InstitutionKey(name)] == r.result.value
    ensures r.result.Err? ==> r.state.institutions == st.institutions
    ensures InstitutionKey(name) !in st.institutions ==>
      |r.state.calls| > |st.calls| && r.state.calls[|st.calls|] == LookupCall(LookupQuery(name, "corporate_body", NoDiscriminator))
    ensures InstitutionKey(name) !in st.institutions && r.result.Ok? ==>
      SiteGives(svc, InstitutionQuery(name), InstitutionPayload(name), r.result.value)
    ensures InstitutionKey(name) !in st.institutions ==>
      forall tid :: SiteGives(svc, InstitutionQuery(name), InstitutionPayload(name), tid) ==> r.result == Ok(tid)
  {
    var key := InstitutionKey(name);
    if key in st.institutions then Outcome(Ok(st.institutions[key]), st)
    else
      var found := FindOrCreateInstitution(svc, name, st);
      match found.result
      case Err(e) => Outcome(Err(e), found.state)
      case Ok(tid) => Outcome(Ok(tid), found.state.(institutions := found.state.institutions[key := tid]))
  }

  /** Whether an institution resolves, and to which id, depends on its cache
      only: the request log plays no part. */
  lemma EnsureInstitutionReadsCache(svc: TermService, name: string, s1: ResolverState, s2: ResolverState)
    requires s1.institutions == s2.institutions
    ensures EnsureInstitution(svc, name, s1).result == EnsureInstitution(svc, name, s2).result
  {
    var q := LookupQuery(name, "corporate_body", NoDiscriminator);
    assert LookupTerm(svc, q, s1).result == LookupTerm(svc, q, s2).result;
    var l1, l2 := LookupTerm(svc, q, s1).state, LookupTerm(svc, q, s2).state;
    assert CreateTerm(svc, "corporate_body", name, "", "", 0, l1).result
        == CreateTerm(svc, "corporate_body", name, "", "", 0, l2).result;
  }

  // ---------------------------------------------------------------------------
  // People

  /** The person cache key: display name, e-mail, ORCID and institution joined
      with '|', trimmed and lower-cased. */
  function PersonKey(c: Contributor, name: string): string {
    ToLower(TrimSpace(Join([name, c.email, c.orcid, c.institution], "|")))
  }

  /** Which attribute a person lookup is narrowed by: e-mail first, then ORCID,
      then the employing institution. */
  function PersonDiscriminator(c: Contributor, institutionId: int): (d: Discriminator)
    ensures c.email != "" ==> d == ByEmail(c.email)
    ensures c.email == "" && c.orcid != "" ==> d == ByOrcid(c.orcid)
    ensures c.email == "" && c.orcid == "" && c.institution != "" ==> d == ByWorksFor(institutionId)
    ensures HasPersonFields(c) || d == NoDiscriminator
  {
    if c.email != "" then ByEmail(c.email)
    else if c.orcid != "" then ByOrcid(c.orcid)
    else if c.institution != "" then ByWorksFor(institutionId)
    else NoDiscriminator
  }

  /** The lookup that finds a person, narrowed with institution id `iid` when
      the institution is the discriminator. */
  function PersonQuery(c: Contributor, name: string, iid: int): LookupQuery {
    LookupQuery(name, "person", PersonDiscriminator(c, iid))
  }

  /** The payload that creates a person employed by institution `iid`. */
  function PersonPayload(c: Contributor, name: string, iid: int): TermPayload {
    Payload("person", name, c.email, c.orcid, iid)
  }

  /** The id cached for the contributor's institution; 0 when it names none or
      none is cached. */
  function CachedInstitutionId(c: Contributor, s: ResolverState): int {
    if c.institution != "" && InstitutionKey(c.institution) in s.institutions
    then s.institutions[InstitutionKey(c.institution)] else 0
  }

  /** The lookup, and on "not found" the creation, of a person once the
      institution id is known (0 when none was resolved yet). */
  function LookupOrCreatePerson(svc: TermService, c: Contributor, name: string, institutionId: int,
                                st: ResolverState): (r: Outcome<int>)
    ensures Grows(st, r.state)
    ensures r.result.Err? ==> !r.result.error.PoorlyFormatted?
    ensures r.state.people == st.people
    ensures |r.state.calls| > |st.calls|
    ensures r.state.calls[|st.calls|] == LookupCall(LookupQuery(name, "person", PersonDiscriminator(c, institutionId)))
    ensures forall tid :: Answers(svc.lookup(PersonQuery(c, name, institutionId)), Found(tid)) ==>
      r == Outcome(Ok(tid), st.(calls := st.calls + [LookupCall(PersonQuery(c, name, institutionId))]))
    ensures r.result.Ok? && institutionId == 0 && c.institution != ""
            && Answers(svc.lookup(PersonQuery(c, name, institutionId)), NotFound) ==>
      InstitutionKey(c.institution) in r.state.institutions
    ensures r.result.Ok? ==>
      var worksFor := if institutionId == 0 then CachedInstitutionId(c, r.state) else institutionId;
      SiteGives(svc, PersonQuery(c, name, institutionId), PersonPayload(c, name, worksFor), r.result.value)
  {
    var looked := LookupTerm(svc, PersonQuery(c, name, institutionId), st);
    match looked.result
    case Err(e) => Outcome(Err(e), looked.state)
    case Ok(Found(tid)) => Outcome(Ok(tid), looked.state)
    case Ok(NotFound) => CreatePerson(svc, c, name, institutionId, looked.state)
  }

  /** A person the site gives is the one resolved: the lookup's term when it
      finds one, and otherwise the term created with the institution id passed
      in, or resolved on the way when none was. */
  lemma LookupOrCreatePersonComplete(svc: TermService, c: Contributor, name: string, institutionId: int,
                                     st: ResolverState)
    ensures institutionId != 0 || c.institution == "" ==>
      forall tid :: SiteGives(svc, PersonQuery(c, name, institutionId), PersonPayload(c, name, institutionId), tid) ==>
        LookupOrCreatePerson(svc, c, name, institutionId, st).result == Ok(tid)
    ensures institutionId == 0 && c.institution != "" && EnsureInstitution(svc, c.institution, st).result.Ok? ==>
      var iid := EnsureInstitution(svc, c.institution, st).result.value;
      forall tid :: SiteGives(svc, PersonQuery(c, name, 0), PersonPayload(c, name, iid), tid) ==>
        LookupOrCreatePerson(svc, c, name, institutionId, st).result == Ok(tid)
  {
    var q := PersonQuery(c, name, institutionId);
    var looked := LookupTerm(svc, q, st);
    LookupAnswers(svc, q, st);
    EnsureInstitutionReadsCache(svc, c.institution, st, looked.state);
  }

  /** The creation that follows a person lookup that found nothing; the
      employing institution is resolved first when its id is not known yet. */
  function CreatePerson(svc: TermService, c: Contributor, name: string, institutionId: int,
                        st: ResolverState): (r: Outcome<int>)
    ensures Grows(st, r.state)
    ensures r.result.Err? ==> !r.result.error.PoorlyFormatted?
    ensures r.state.people == st.people
    ensures r.result.Ok? && institutionId == 0 && c.institution != "" ==>
      InstitutionKey(c.institution) in r.state.institutions
    ensures r.result.Ok? ==>
      var worksFor := if institutionId == 0 then CachedInstitutionId(c, r.state) else institutionId;
      svc.password != "" && Answers(svc.create(PersonPayload(c, name, worksFor)), Found(r.result.value))
    ensures institutionId != 0 || c.institution == "" ==>
      forall tid :: svc.password != "" && Answers(svc.create(PersonPayload(c, name, institutionId)), Found(tid)) ==>
        r.result == Ok(tid)
    ensures institutionId == 0 && c.institution != "" && EnsureInstitution(svc, c.institution, st).result.Ok? ==>
      var iid := EnsureInstitution(svc, c.institution, st).result.value;
      forall tid :: svc.password != "" && Answers(svc.create(PersonPayload(c, name, iid)), Found(tid)) ==>
        r.result == Ok(tid)
  {
    if institutionId == 0 && c.institution != "" then
      var inst := EnsureInstitution(svc, c.institution, st);
      match inst.result
      case Err(e) => Outcome(Err(e), inst.state)
      case Ok(iid) => CreateTerm(svc, "person", name, c.email, c.orcid, iid, inst.state)
    else CreateTerm(svc, "person", name, c.email, c.orcid, institutionId, st)
  }

  /** `ensurePerson`: the cached id, or a lookup narrowed by the first present
      of e-mail, ORCID and institution (resolving the institution first when it
      is the discriminator), or a new term; only a success is cached. */
  function EnsurePerson(svc: TermService, c: Contributor, name: string, st: ResolverState): (r: Outcome<int>)
    ensures Grows(st, r.state)
    ensures r.result.Err? ==> !r.result.error.PoorlyFormatted?
    ensures PersonKey(c, name) in st.people ==> r == Outcome(Ok(st.people[PersonKey(c, name)]), st)
    ensures r.result.Ok? ==>
      PersonKey(c, name) in r.state.people && r.state.people[PersonKey(c, name)] == r.result.value
    ensures r.result.Err? ==> r.state.people == st.people
    ensures PersonKey(c, name) !in st.people && r.result.Ok? && c.institution != ""
            && (PersonDiscriminator(c, 0).ByWorksFor? || Answers(svc.lookup(PersonQuery(c, name, 0)), NotFound)) ==>
      InstitutionKey(c.institution) in r.state.institutions
    ensures PersonKey(c, name) !in st.people && r.result.Ok? ==>
      var iid := CachedInstitutionId(c, r.state);
      SiteGives(svc, PersonQuery(c, name, iid), PersonPayload(c, name, iid), r.result.value)
    ensures PersonKey(c, name) !in st.people && !PersonDiscriminator(c, 0).ByWorksFor? ==>
      forall tid :: Answers(svc.lookup(PersonQuery(c, name, 0)), Found(tid)) ==> r.result == Ok(tid)
  {
    var key := PersonKey(c, name);
    if key in st.people then Outcome(Ok(st.people[key]), st)
    else
      var found :=
        if c.email == "" && c.orcid == "" && c.institution != "" then
          var inst := EnsureInstitution(svc, c.institution, st);
          match inst.result
          case Err(e) => Outcome(Err(e), inst.state)
          case Ok(iid) => LookupOrCreatePerson(svc, c, name, iid, inst.state)
        else LookupOrCreatePerson(svc, c, name, 0, st);
      match found.result
      case Err(e) => found
      case Ok(tid) => Outcome(Ok(tid), found.state.(people := found.state.people[key := tid]))
  }

  /** A person the site gives is the one resolved on a cache miss: narrowed
      by the institution id `ensureInstitution` yields when the institution is
      the discriminator, and created with that id when the lookup finds
      nothing. */
  lemma EnsurePersonComplete(svc: TermService, c: Contributor, name: string, st: ResolverState)
    ensures PersonKey(c, name) !in st.people && c.institution == "" ==>
      forall tid :: SiteGives(svc, PersonQuery(c, name, 0), PersonPayload(c, name, 0), tid) ==>
        EnsurePerson(svc, c, name, st).result == Ok(tid)
    ensures PersonKey(c, name) !in st.people && c.institution != "" && EnsureInstitution(svc, c.institution, st).result.Ok? ==>
      var iid := EnsureInstitution(svc, c.institution, st).result.value;
      forall tid :: SiteGives(svc, PersonQuery(c, name, iid), PersonPayload(c, name, iid), tid) ==>
        EnsurePerson(svc, c, name, st).result == Ok(tid)
  {
    if PersonKey(c, name) !in st.people {
      if c.email == "" && c.orcid == "" && c.institution != "" {
        EnsurePersonByInstitution(svc, c, name, st);
      } else {
        EnsurePersonByOther(svc, c, name, st);
      }
    }
  }

  /** The institution is the discriminator: it is resolved first, and its id
      narrows the lookup and goes into the creation. */
  lemma EnsurePersonByInstitution(svc: TermService, c: Contributor, name: string, st: ResolverState)
    requires PersonKey(c, name) !in st.people && c.email == "" && c.orcid == "" && c.institution != ""
    ensures EnsureInstitution(svc, c.institution, st).result.Ok? ==>
      var iid := EnsureInstitution(svc, c.institution, st).result.value;
      forall tid :: SiteGives(svc, PersonQuery(c, name, iid), PersonPayload(c, name, iid), tid) ==>
        EnsurePerson(svc, c, name, st).result == Ok(tid)
  {
    var inst := EnsureInstitution(svc, c.institution, st);
    if inst.result.Ok? {
      var iid := inst.result.value;
      assert EnsurePerson(svc, c, name, st).result == LookupOrCreatePerson(svc, c, name, iid, inst.state).result;
      LookupOrCreatePersonComplete(svc, c, name, iid, inst.state);
      assert EnsureInstitution(svc, c.institution, inst.state).result == Ok(iid);
    }
  }

  /** E-mail, ORCID or nothing is the discriminator: the lookup is not
      narrowed by an institution, which is resolved only for the creation. */
  lemma EnsurePersonByOther(svc: TermService, c: Contributor, name: string, st: ResolverState)
    requires PersonKey(c, name) !in st.people && (c.email != "" || c.orcid != "" || c.institution == "")
    ensures c.institution == "" ==>
      forall tid :: SiteGives(svc, PersonQuery(c, name, 0), PersonPayload(c, name, 0), tid) ==>
        EnsurePerson(svc, c, name, st).result == Ok(tid)
    ensures c.institution != "" && EnsureInstitution(svc, c.institution, st).result.Ok? ==>
      var iid := EnsureInstitution(svc, c.institution, st).result.value;
      forall tid :: SiteGives(svc, PersonQuery(c, name, iid), PersonPayload(c, name, iid), tid) ==>
        EnsurePerson(svc, c, name, st).result == Ok(tid)
  {
    assert EnsurePerson(svc, c, name, st).result == LookupOrCreatePerson(svc, c, name, 0, st).result;
    LookupOrCreatePersonComplete(svc, c, name, 0, st);
    if c.institution != "" && EnsureInstitution(svc, c.institution, st).result.Ok? {
      var iid := EnsureInstitution(svc, c.institution, st).result.value;
      assert PersonQuery(c, name, iid) == PersonQuery(c, name, 0);
    }
  }

  // ---------------------------------------------------------------------------
  // Contributors

  /** "relator:vocabulary:tid" for a resolved id; the resolver's error otherwise. */
  function ResolvedName(relator: string, vocab: string, ensured: Result<int, TermError>): (r: Result<string, TermError>)
    ensures r.Ok? <==> ensured.Ok?
    ensures ensured.Err? ==> r == Err(ensured.error)
  {
    match ensured
    case Err(e) => Err(e)
    case Ok(tid) => Ok(relator + ":" + vocab + ":" + Itoa(tid))
  }

  /** `resolveContributor`: a name "relator:scheme:vocabulary:display" whose
      vocabulary is `person` or `corporate_body` becomes
      "relator:scheme:vocabulary:tid"; any other vocabulary is passed through
      untouched, and a name of fewer than four parts is an error. */
  function ResolveContributor(svc: TermService, c: Contributor, st: ResolverState): (r: Outcome<string>)
    ensures Grows(st, r.state)
    ensures |NameParts(c)| < 4 ==> r == Outcome(Err(PoorlyFormatted(c.name)), st)
    ensures |NameParts(c)| >= 4 && NameParts(c)[2] != "person" && NameParts(c)[2] != "corporate_body" ==>
      r == Outcome(Ok(c.name), st)
    ensures r.result.Err? && r.result.error.PoorlyFormatted? <==> |NameParts(c)| < 4
    ensures r.result.Ok? && |NameParts(c)| >= 4 && (NameParts(c)[2] == "person" || NameParts(c)[2] == "corporate_body") ==>
      RelatorOf(NameParts(c)) + ":" + NameParts(c)[2] + ":" <= r.result.value
    ensures |NameParts(c)| >= 4 && NameParts(c)[2] == "person" ==>
      var ensured := EnsurePerson(svc, c, DisplayName(NameParts(c)), st);
      && r.state == ensured.state
      && (r.result.Ok? <==> ensured.result.Ok?)
      && (r.result.Ok? ==> r.result.value == RelatorOf(NameParts(c)) + ":" + NameParts(c)[2] + ":" + Itoa(ensured.result.value))
    ensures |NameParts(c)| >= 4 && NameParts(c)[2] == "corporate_body" ==>
      var ensured := EnsureInstitution(svc, DisplayName(NameParts(c)), st);
      && r.state == ensured.state
      && (r.result.Ok? <==> ensured.result.Ok?)
      && (r.result.Ok? ==> r.result.value == RelatorOf(NameParts(c)) + ":" + NameParts(c)[2] + ":" + Itoa(ensured.result.value))
  {
    var parts := NameParts(c);
    if |parts| < 4 then Outcome(Err(PoorlyFormatted(c.name)), st)
    else
      var relator := RelatorOf(parts);
      var vocab := parts[2];
      var name := DisplayName(parts);
      if vocab != "person" && vocab != "corporate_body" then Outcome(Ok(c.name), st)
      else
        var ensured := if vocab == "person" then EnsurePerson(svc, c, name, st) else EnsureInstitution(svc, name, st);
        Outcome(ResolvedName(relator, vocab, ensured.result), ensured.state)
  }

  // ---------------------------------------------------------------------------
  // Lemmas

  /** The cache key of an institution ignores ASCII case and surrounding white
      space. */
  lemma InstitutionKeyNormalises(name: string)
    ensures InstitutionKey(ToLower(name)) == InstitutionKey(name)
    ensures InstitutionKey(TrimSpace(name)) == InstitutionKey(name)
  {
    TrimSpaceLower(name);
    ToLowerIdempotent(TrimSpace(name));
    TrimSpaceIdempotent(name);
  }

  /** For a person whose attributes are all empty the key is the institution-style
      key of the display name: the three separators survive trimming. */
  lemma BarePersonKey(c: Contributor, name: string)
    requires c.email == "" && c.orcid == "" && c.institution == ""
    ensures PersonKey(c, name) == ToLower(TrimLeftSpace(name) + "|||")
  {
    var joined := Join([name, c.email, c.orcid, c.institution], "|");
    assert [name, c.email, c.orcid, c.institution][1..] == ["", "", ""];
    assert ["", "", ""][1..] == ["", ""];
    assert ["", ""][1..] == [""];
    assert Join([""], "|") == "";
    assert Join(["", ""], "|") == "" + "|" + "";
    assert Join(["", "", ""], "|") == "" + "|" + ("" + "|" + "");
    assert joined == name + "|" + ("" + "|" + ("" + "|" + ""));
    assert joined == name + "|||";
    TrimLeftAppend(name, "|||");
  }

  /** Trimming the left of `a + b` when `b` starts with a non-space, then the
      right of the result when `b` ends with one. */
  lemma TrimLeftAppend(a: string, b: string)
    requires |b| > 0 && !IsSpace(b[0]) && !IsSpace(b[|b| - 1])
    ensures TrimSpace(a + b) == TrimLeftSpace(a) + b
  {
    TrimLeftSpacePrefix(a, b);
  }

  lemma {:induction false} TrimLeftSpacePrefix(a: string, b: string)
    requires |b| > 0 && !IsSpace(b[0]) && !IsSpace(b[|b| - 1])
    ensures TrimLeftSpace(a + b) == TrimLeftSpace(a) + b
    decreases |a|
  {
    if |a| == 0 {
      assert a + b == b;
    } else if IsSpace(a[0]) {
      assert (a + b)[1..] == a[1..] + b;
      TrimLeftSpacePrefix(a[1..], b);
    }
  }

  /** A second resolution of a contributor that was resolved once is answered
      from the caches: the same result and no request sent. */
  lemma ResolveTwice(svc: TermService, c: Contributor, st: ResolverState)
    requires ResolveContributor(svc, c, st).result.Ok?
    ensures var first := ResolveContributor(svc, c, st);
      ResolveContributor(svc, c, first.state) == first
  {
  }

  /** A contributor with an e-mail address is looked up by that address, never
      by ORCID or institution, and nothing is sent before that lookup. */
  lemma EmailTakesPrecedence(svc: TermService, c: Contributor, name: string, st: ResolverState)
    requires c.email != "" && PersonKey(c, name) !in st.people
    ensures var r := EnsurePerson(svc, c, name, st);
      |r.state.calls| > |st.calls| && r.state.calls[|st.calls|] == LookupCall(LookupQuery(name, "person", ByEmail(c.email)))
  {
  }

  /** Without e-mail the ORCID narrows the lookup. */
  lemma OrcidNext(svc: TermService, c: Contributor, name: string, st: ResolverState)
    requires c.email == "" && c.orcid != "" && PersonKey(c, name) !in st.people
    ensures var r := EnsurePerson(svc, c, name, st);
      |r.state.calls| > |st.calls| && r.state.calls[|st.calls|] == LookupCall(LookupQuery(name, "person", ByOrcid(c.orcid)))
  {
  }

  /** With only an institution, the institution is resolved first, and a failure
      there ends the resolution before any person request. */
  lemma InstitutionFirst(svc: TermService, c: Contributor, name: string, st: ResolverState)
    requires c.email == "" && c.orcid == "" && c.institution != "" && PersonKey(c, name) !in st.people
    ensures var r := EnsurePerson(svc, c, name, st);
      var inst := EnsureInstitution(svc, c.institution, st);
      && (inst.result.Err? ==> r == inst)
      && (inst.result.Ok? ==>
            |r.state.calls| > |inst.state.calls|
            && r.state.calls[|inst.state.calls|]
               == LookupCall(LookupQuery(name, "person", ByWorksFor(inst.result.value))))
  {
  }

  /** Without a password nothing is ever created: a contributor that is not
      already known fails unless the lookup finds it. */
  lemma NoPasswordNoCreate(svc: TermService, name: string, st: ResolverState)
    requires svc.password == ""
    ensures var r := EnsureInstitution(svc, name, st);
      forall k :: |st.calls| <= k < |r.state.calls| ==> r.state.calls[k].LookupCall?
  {
    var key := InstitutionKey(name);
    var r := EnsureInstitution(svc, name, st);
    if key in st.institutions {
      assert r.state == st;
    } else {
      var found := FindOrCreateInstitution(svc, name, st);
      assert r.state.calls == found.state.calls;
    }
  }

  /** The resolved form keeps the relator and vocabulary and puts, where the
      display name was, the id now cached for the contributor; when it was
      not cached before, the site gave that id: the lookup found it, or the
      lookup found nothing and the creation returned it. */
  lemma ResolvedShape(svc: TermService, c: Contributor, st: ResolverState)
    ensures var p := NameParts(c); var r := ResolveContributor(svc, c, st);
      |p| >= 4 && p[2] == "person" && r.result.Ok? ==>
        var key := PersonKey(c, DisplayName(p));
        var iid := CachedInstitutionId(c, r.state);
        && key in r.state.people
        && r.result.value == RelatorOf(p) + ":" + p[2] + ":" + Itoa(r.state.people[key])
        && (key !in st.people ==>
              SiteGives(svc, PersonQuery(c, DisplayName(p), iid), PersonPayload(c, DisplayName(p), iid), r.state.people[key]))
    ensures var p := NameParts(c); var r := ResolveContributor(svc, c, st);
      |p| >= 4 && p[2] == "corporate_body" && r.result.Ok? ==>
        var key := InstitutionKey(DisplayName(p));
        && key in r.state.institutions
        && r.result.value == RelatorOf(p) + ":" + p[2] + ":" + Itoa(r.state.institutions[key])
        && (key !in st.institutions ==>
              SiteGives(svc, InstitutionQuery(DisplayName(p)), InstitutionPayload(DisplayName(p)), r.state.institutions[key]))
  {
  }
}
