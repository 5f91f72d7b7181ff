/** Laws that relate the operations of the NanoID value type to each other:
    the lossless string conversion, the single-scalar coding, equality and
    the diagnostic carried by a decoding failure. */
module NanoIDLaws {
  import opened Wrappers
  import opened NanoID

  /** `needle` occurs somewhere inside `hay`. */
  predicate Contains(hay: string, needle: string) {
    exists k :: 0 <= k <= |hay| && OccursAt(hay, needle, k)
  }

  /** `needle` occurs inside `hay` starting at position `k`. */
  predicate OccursAt(hay: string, needle: string, k: int) {
    0 <= k <= |hay| - |needle| && hay[k..k + |needle|] == needle
  }

  /** Rendering an accepted string gives back that very string. */
  lemma RenderAfterParse(s: string)
    requires FromString(s).Some?
    ensures Description(FromString(s).value) == s
  {
  }

  /** Encoding a decoded identifier gives back the decoded scalar. */
  lemma EncodeAfterDecode(s: string)
    requires Decode(s).Success?
    ensures Encode(Decode(s).value) == s
  {
  }

  /** A single character anywhere in `s` that the alphabet does not hold,
      even up to canonical equivalence, makes both the validating
      constructor and the decoder reject it. */
  lemma OneOutsiderRejects(s: string, i: int)
    requires 0 <= i < |s| && Canon(s[i]) !in Alphabet
    ensures FromString(s) == None
    ensures Decode(s) == Failure(DataCorrupted(ConversionFailure(s)))
  {
    InAlphabetIffMember(s[i]);
  }

  /** `init?(_:)` accepts a string exactly when the canonical decomposition
      of every one of its characters occurs in the alphabet; for strings
      without a Kelvin sign, exactly when every character does. */
  lemma AcceptsExactlyAlphabetStrings(s: string)
    ensures FromString(s).Some? <==> forall i :: 0 <= i < |s| ==> Canon(s[i]) in Alphabet
    ensures KelvinSign !in s ==>
      (FromString(s).Some? <==> forall i :: 0 <= i < |s| ==> s[i] in Alphabet)
  {
    forall i | 0 <= i < |s|
      ensures InAlphabet(s[i]) <==> Canon(s[i]) in Alphabet
      ensures InAlphabet(s[i]) <==> s[i] in Alphabet || s[i] == KelvinSign
    {
      InAlphabetIffMember(s[i]);
    }
  }

  /** `init?(_:)` accepts a string exactly when its canonical form is
      URL-safe; a string without a Kelvin sign exactly when it is URL-safe
      itself. */
  lemma AcceptsExactlyCanonicallyUrlSafe(s: string)
    ensures FromString(s).Some? <==> AllUrlSafe(CanonicalForm(s))
    ensures KelvinSign !in s ==> (FromString(s).Some? <==> AllUrlSafe(s))
  {
    var t := CanonicalForm(s);
    forall i | 0 <= i < |s|
      ensures InAlphabet(s[i]) <==> UrlSafe(t[i])
      ensures InAlphabet(s[i]) <==> UrlSafe(s[i]) || s[i] == KelvinSign
    {
      InAlphabetIffCanonicallyUrlSafe(s[i]);
    }
  }

  /** A character anywhere in `s` that is neither URL-safe nor the Kelvin
      sign makes the validating constructor reject it. */
  lemma NonUrlSafeRejects(s: string, i: int)
    requires 0 <= i < |s| && !UrlSafe(s[i]) && s[i] != KelvinSign
    ensures FromString(s) == None
  {
    InAlphabetIffCanonicallyUrlSafe(s[i]);
  }

  /** Every identifier is URL-safe up to canonical equivalence, and
      URL-safe character for character when it holds no Kelvin sign. */
  lemma IdentifiersAreCanonicallyUrlSafe(id: NanoID)
    ensures AllUrlSafe(CanonicalForm(id.rawValue))
    ensures KelvinSign !in id.rawValue ==> AllUrlSafe(id.rawValue)
  {
    var s := id.rawValue;
    var t := CanonicalForm(s);
    forall i | 0 <= i < |s|
      ensures UrlSafe(t[i])
      ensures UrlSafe(s[i]) || s[i] == KelvinSign
    {
      InAlphabetIffCanonicallyUrlSafe(s[i]);
    }
  }

  /** The size of an accepted string's identifier is its character count. */
  lemma SizeCountsCharacters(s: string)
    requires FromString(s).Some?
    ensures Size(FromString(s).value) == |s|
  {
  }

  /** Swift's `==` on identifiers compares them character by character up to
      canonical equivalence: identical raw values are equal, and equal
      identifiers without a Kelvin sign have identical raw values. */
  lemma EqualsComparesCharacters(a: NanoID, b: NanoID)
    ensures Equals(a, b) <==>
      |a.rawValue| == |b.rawValue| &&
      forall i :: 0 <= i < |a.rawValue| ==> SameCharacter(a.rawValue[i], b.rawValue[i])
    ensures a.rawValue == b.rawValue ==> Equals(a, b)
    ensures Equals(a, b) && KelvinSign !in a.rawValue && KelvinSign !in b.rawValue ==>
      a.rawValue == b.rawValue
  {
    var s, t := a.rawValue, b.rawValue;
    if |s| == |t| && forall i :: 0 <= i < |s| ==> SameCharacter(s[i], t[i]) {
      assert CanonicalForm(s) == CanonicalForm(t);
    }
    if Equals(a, b) {
      forall i | 0 <= i < |s| ensures SameCharacter(s[i], t[i]) {
        assert CanonicalForm(s)[i] == CanonicalForm(t)[i];
      }
      if KelvinSign !in s && KelvinSign !in t {
        assert forall i :: 0 <= i < |s| ==> s[i] == CanonicalForm(s)[i];
        assert forall i :: 0 <= i < |t| ==> t[i] == CanonicalForm(t)[i];
      }
    }
  }

  /** Swift's `==` on identifiers is an equivalence relation. */
  lemma EqualsIsEquivalence(a: NanoID, b: NanoID, c: NanoID)
    ensures Equals(a, a)
    ensures Equals(a, b) ==> Equals(b, a)
    ensures Equals(a, b) && Equals(b, c) ==> Equals(a, c)
  {
  }

  /** Identifiers of different sizes are never equal; in particular a
      generated identifier of the default size differs from any identifier
      built from a string of another length. */
  lemma DifferentSizesDiffer(a: NanoID, b: NanoID)
    requires Size(a) != Size(b)
    ensures !Equals(a, b)
  {
    EqualsComparesCharacters(a, b);
  }

  /** Regenerating from `DrawsFor(id)` gives an identifier equal to `id`
      under Swift's `==`, and identical to it when `id` holds no Kelvin
      sign. */
  lemma RegenerationRecovers(id: NanoID, other: NanoID)
    requires |other.rawValue| == Size(id)
    requires forall i :: 0 <= i < Size(id) ==> other.rawValue[i] == Alphabet[DrawsFor(id)[i]]
    ensures Equals(other, id)
    ensures KelvinSign !in id.rawValue ==> other == id
  {
    AlphabetIsUrlSafe();
    var offsets := DrawsFor(id);
    forall i | 0 <= i < Size(id) ensures SameCharacter(other.rawValue[i], id.rawValue[i]) {
      assert UrlSafe(Alphabet[offsets[i]]);
    }
    EqualsComparesCharacters(other, id);
  }

  /** The failure description says that conversion failed, names the type
      `NanoID` and quotes the rejected string. */
  lemma FailureNamesInput(s: string)
    ensures ConversionFailure(s)[..17] == "Failed to convert"
    ensures Contains(ConversionFailure(s), "Failed to convert")
    ensures Contains(ConversionFailure(s), "NanoID")
    ensures Contains(ConversionFailure(s), s)
  {
    var m := ConversionFailure(s);
    assert m[..17] == "Failed to convert";
    assert OccursAt(m, "Failed to convert", 0);
    assert OccursAt(m, "NanoID", 33);
    assert OccursAt(m, s, 46);
  }

  /** The failure description identifies the rejected string: two rejected
      strings never share a description. */
  lemma FailureIdentifiesInput(s: string, t: string)
    requires ConversionFailure(s) == ConversionFailure(t)
    ensures s == t
  {
    var m := ConversionFailure(s);
    assert |s| == |t|;
    assert s == m[46..46 + |s|];
    assert t == ConversionFailure(t)[46..46 + |t|];
  }
}
