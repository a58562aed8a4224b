/** The contributor record carried, as JSON, in a spreadsheet's Contributor cells. */
module Contributors {
  import opened GoStrings

  /** `contributor.Contributor`; an absent JSON member decodes to "". */
  datatype Contributor = Contributor(
    name: string,
    orcid: string,
    institution: string,
    email: string,
    status: string)

  /** What `json.Unmarshal` leaves behind: the record as far as it was filled in,
      and whether decoding reported an error. A syntax error leaves every field
      empty; a type error in one member still fills the others. */
  datatype Decoded = Decoded(value: Contributor, ok: bool)

  /** Any of the attributes that only a person may carry. */
  predicate HasPersonFields(c: Contributor) {
    c.status != "" || c.email != "" || c.institution != "" || c.orcid != ""
  }

  /** The name split on ':' into relator code, relator scheme, vocabulary and the
      display name (which may itself have been split further). */
  function NameParts(c: Contributor): seq<string>
  {
    Split(c.name, ":")
  }

  /** The relator "code:scheme" taken from the first two parts. */
  function RelatorOf(parts: seq<string>): string
    requires |parts| >= 2
  {
    parts[0] + ":" + parts[1]
  }

  /** The display name: every part after the vocabulary, rejoined with ':'. */
  function DisplayName(parts: seq<string>): string
    requires |parts| >= 4
  {
    Join(parts[3..], ":")
  }

  /** Relator, vocabulary and display name put back together give the name, so a
      display name containing ':' survives intact. */
  lemma NameRebuilt(c: Contributor)
    requires |NameParts(c)| >= 4
    ensures RelatorOf(NameParts(c)) + ":" + NameParts(c)[2] + ":" + DisplayName(NameParts(c)) == c.name
  {
    var p := NameParts(c);
    assert Join(p, ":") == c.name;
    assert p[1..][1..] == p[2..];
    assert p[2..][1..] == p[3..];
    assert Join(p, ":") == p[0] + ":" + Join(p[1..], ":");
    assert Join(p[1..], ":") == p[1] + ":" + Join(p[2..], ":");
    assert Join(p[2..], ":") == p[2] + ":" + Join(p[3..], ":");
  }
}
