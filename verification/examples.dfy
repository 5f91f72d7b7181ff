/** The concrete scenarios of the NanoID test suite, stated as lemmas. */
module NanoIDExamples {
  import opened Wrappers
  import opened NanoID
  import opened NanoIDLaws

  /** "abc" is accepted as is, has size 3, renders as "abc", and two
      conversions of it are equal. */
  lemma AbcIsAccepted()
    ensures FromString("abc") == Some(Identifier("abc"))
    ensures Size(FromString("abc").value) == 3
    ensures Description(FromString("abc").value) == "abc"
    ensures Encode(FromString("abc").value) == "abc"
    ensures Equals(FromString("abc").value, FromString("abc").value)
  {
    InAlphabetIffCanonicallyUrlSafe('a');
    InAlphabetIffCanonicallyUrlSafe('b');
    InAlphabetIffCanonicallyUrlSafe('c');
    assert Valid("abc");
  }

  /** "!!!" is rejected by the constructor, and decoding it fails with a
      data-corrupted error that says the conversion failed. */
  lemma BangsAreRejected()
    ensures FromString("!!!") == None
    ensures Decode("!!!").Failure?
    ensures Contains(Decode("!!!").error.debugDescription, "Failed to convert")
    ensures Contains(Decode("!!!").error.debugDescription, "!!!")
  {
    NonUrlSafeRejects("!!!", 0);
    FailureNamesInput("!!!");
  }

  /** A space, an emoji or a newline in the middle of a string makes the
      constructor reject it. */
  lemma InvalidCharactersAreRejected()
    ensures FromString("abc def") == None
    ensures FromString("abc\U{1F642}def") == None
    ensures FromString("abc\ndef") == None
  {
    NonUrlSafeRejects("abc def", 3);
    NonUrlSafeRejects("abc\U{1F642}def", 3);
    NonUrlSafeRejects("abc\ndef", 3);
  }

  /** The first ten alphabet characters form an identifier holding exactly
      those characters. */
  lemma AlphabetPrefixIsAccepted()
    ensures FromString(Alphabet[..10]).Some?
    ensures FromString(Alphabet[..10]).value.rawValue == Alphabet[..10]
  {
    assert Valid(Alphabet[..10]);
  }

  /** The last twelve alphabet characters form an identifier that renders
      back as those characters. */
  lemma AlphabetSuffixRendersBack()
    ensures FromString(Alphabet[52..]).Some?
    ensures Description(FromString(Alphabet[52..]).value) == Alphabet[52..]
  {
    assert Valid(Alphabet[52..]);
  }

  /** A generated identifier of the default size never equals the one
      built from "abc". */
  lemma DefaultSizedDiffersFromAbc(id: NanoID)
    requires Size(id) == DefaultSize
    ensures Some(id) != FromString("abc")
    ensures FromString("abc").Some? && !Equals(id, FromString("abc").value)
  {
    AbcIsAccepted();
    DifferentSizesDiffer(id, FromString("abc").value);
  }

  /** The Kelvin sign is canonically equivalent to `K`, so `firstIndex(of:)`
      finds it in the alphabet: the one-character string of it is accepted
      unchanged, and the identifier equals the one built from "K" although
      the raw values differ. */
  lemma KelvinSignIsAccepted()
    ensures FromString("\U{212A}").Some?
    ensures FromString("\U{212A}").value.rawValue == "\U{212A}"
    ensures Size(FromString("\U{212A}").value) == 1
    ensures Decode("\U{212A}").Success?
    ensures FromString("K").Some?
    ensures Equals(FromString("\U{212A}").value, FromString("K").value)
    ensures FromString("\U{212A}") != FromString("K")
  {
    InAlphabetIffCanonicallyUrlSafe(KelvinSign);
    InAlphabetIffCanonicallyUrlSafe('K');
    assert Valid("\U{212A}");
    assert Valid("K");
    assert CanonicalForm("\U{212A}") == "K";
    assert CanonicalForm("K") == "K";
  }
}
