// The present/absent decision of a manual submission: the identifier the
// employee types is compared with the identifier they logged in with.

module Identity {
  import opened AsciiText

  datatype Status = Present | Absent

  /** The status's name as it is sent and displayed. */
  function StatusName(s: Status): string {
    match s
    case Present => "present"
    case Absent => "absent"
  }

  /** An identifier as compared: trimmed, then lower-cased. */
  function Normalize(id: string): string {
    Lower(Trim(id))
  }

  /** Present when the typed identifier matches the logged-in one after
      normalisation, absent otherwise (a mismatch is not an error). */
  function Resolve(input: string, loggedId: string): Status {
    if Normalize(input) == Normalize(loggedId) then Present else Absent
  }

  /** Two strings of one length that agree character by character once
      ASCII case is folded. */
  predicate EqualIgnoringCase(x: string, y: string) {
    |x| == |y| && forall i :: 0 <= i < |x| ==> LowerChar(x[i]) == LowerChar(y[i])
  }

  /** The decision with the two operations swapped: present exactly when
      lower-casing and then trimming both identifiers gives the same
      string. */
  lemma ResolvePresentIff(input: string, loggedId: string)
    ensures Resolve(input, loggedId) == Present <==> Trim(Lower(input)) == Trim(Lower(loggedId))
    ensures Resolve(input, loggedId) == Absent <==> Trim(Lower(input)) != Trim(Lower(loggedId))
  {
    TrimLowerCommute(input);
    TrimLowerCommute(loggedId);
  }

  /** Lower-cased strings are equal exactly when the strings agree up to
      ASCII case. */
  lemma LowerEqualIff(x: string, y: string)
    ensures Lower(x) == Lower(y) <==> EqualIgnoringCase(x, y)
  {
    if Lower(x) == Lower(y) {
      assert forall i :: 0 <= i < |x| ==> LowerChar(x[i]) == Lower(y)[i];
    }
  }

  /** The decision over all inputs: present exactly when the trimmed
      identifiers agree up to ASCII case, absent in every other case. */
  lemma ResolveIffCaseInsensitiveMatch(input: string, loggedId: string)
    ensures Resolve(input, loggedId) == Present <==> EqualIgnoringCase(Trim(input), Trim(loggedId))
    ensures Resolve(input, loggedId) == Absent <==> !EqualIgnoringCase(Trim(input), Trim(loggedId))
  {
    LowerEqualIff(Trim(input), Trim(loggedId));
  }

  /** Identifiers that differ only in ASCII case and surrounding white space
      resolve to present. */
  lemma ResolveIgnoresCaseAndPadding(x: string, y: string, p: string, q: string, p': string, q': string)
    requires EqualIgnoringCase(x, y)
    requires AllSpace(p) && AllSpace(q) && AllSpace(p') && AllSpace(q')
    ensures Resolve(p + x + q, p' + y + q') == Present
  {
    TrimIgnoresPadding(p, x, q);
    TrimIgnoresPadding(p', y, q');
    assert Lower(x) == Lower(y);
    TrimLowerCommute(x);
    TrimLowerCommute(y);
  }
}
