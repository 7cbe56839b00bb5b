/** Normalisation of the user's identifier URL (`me`) before discovery. */
module Identifier {

  const HttpPrefix := "http://"
  const HttpsPrefix := "https://"

  /** `me` starts with one of the two schemes the extension recognises
      (a case-sensitive prefix test). */
  predicate HasScheme(me: string) {
    HttpPrefix <= me || HttpsPrefix <= me
  }

  /** The identifier as sent to discovery: it always carries a scheme, an
      identifier that already has one is kept, and otherwise exactly
      `http://` is put in front of it. */
  function Normalize(me: string): (r: string)
    ensures HasScheme(r)
    ensures HasScheme(me) ==> r == me
    ensures r == me || r == HttpPrefix + me
  {
    if HasScheme(me) then me else HttpPrefix + me
  }

  /** Normalising twice is normalising once. */
  lemma NormalizeIdempotent(me: string)
    ensures Normalize(Normalize(me)) == Normalize(me)
  {
  }

  /** The input survives as the tail of the normalised identifier, and the
      added part is either nothing or the seven characters of `http://`. */
  lemma NormalizeKeepsInput(me: string)
    ensures |Normalize(me)| == |me| || |Normalize(me)| == |me| + |HttpPrefix|
    ensures Normalize(me)[|Normalize(me)| - |me|..] == me
    ensures !HasScheme(me) <==> |Normalize(me)| == |me| + |HttpPrefix|
  {
  }

  /** A bare host name gains `http://`; an `https://` identifier is unchanged. */
  lemma NormalizeExamples()
    ensures Normalize("example.com") == "http://example.com"
    ensures Normalize("https://example.com") == "https://example.com"
  {
    assert !(HttpPrefix <= "example.com") by { assert "example.com"[0] != HttpPrefix[0]; }
    assert !(HttpsPrefix <= "example.com") by { assert "example.com"[0] != HttpsPrefix[0]; }
    assert HttpsPrefix <= "https://example.com";
  }
}
