/** The NanoID value type: a short identifier each of whose characters is
    found by `firstIndex(of:)` in a fixed 64-character, URL-safe alphabet,
    that is, an alphabet character or U+212A KELVIN SIGN (canonically `K`).

    The random draw of the generator is replaced by a caller-supplied
    sequence of offsets into the alphabet, which makes generation a
    deterministic operation. */
module NanoID {
  import opened Wrappers

  /** The characters an identifier may contain, written as eight runs of
      eight so that facts about it can be proved one run at a time; the
      runs spell, in order, the 64-character literal of the Swift
      implementation. */
  const Alphabet: string :=
    "useandom" + "-26T1983" + "40PX75px" + "JACKVERY" +
    "MINDBUSH" + "WOLF_GQZ" + "bfghjklq" + "vwyzrict"

  /** A character that may appear unescaped in a URL path segment: an ASCII
      letter or digit, `-` or `_`. */
  predicate UrlSafe(c: char) {
    ('a' <= c <= 'z') || ('A' <= c <= 'Z') || ('0' <= c <= '9') || c == '-' || c == '_'
  }

  /** Every character of `s` is URL-safe. */
  predicate AllUrlSafe(s: string) {
    forall i :: 0 <= i < |s| ==> UrlSafe(s[i])
  }

  /** The alphabet has 64 characters, and each of them is URL-safe. */
  lemma AlphabetIsUrlSafe()
    ensures |Alphabet| == 64
    ensures AllUrlSafe(Alphabet)
  {
    // One run at a time keeps the proof small.
    assert AllUrlSafe("useandom");
    assert AllUrlSafe("-26T1983");
    assert AllUrlSafe("40PX75px");
    assert AllUrlSafe("JACKVERY");
    assert AllUrlSafe("MINDBUSH");
    assert AllUrlSafe("WOLF_GQZ");
    assert AllUrlSafe("bfghjklq");
    assert AllUrlSafe("vwyzrict");
  }

  /** Every URL-safe character occurs in the alphabet: all 26 lower-case
      and 26 upper-case ASCII letters, the ten digits, `-` and `_`. */
  lemma UrlSafeIsInAlphabet(c: char)
    requires UrlSafe(c)
    ensures c in Alphabet
  {
  }

  /** U+212A KELVIN SIGN, whose canonical decomposition is the letter `K`. */
  const KelvinSign: char := '\U{212A}'

  /** The canonical decomposition of a character, as far as it can relate a
      character to one of the alphabet: the Kelvin sign decomposes to `K`,
      and every other character stands for itself. */
  function Canon(c: char): (d: char) {
    if c == KelvinSign then 'K' else c
  }

  /** Swift's `Character ==`, restricted to the one canonical equivalence
      that reaches the alphabet: a character equals itself, and the Kelvin
      sign and `K` equal each other. Equivalences between two characters
      outside the alphabet (U+2126 OHM SIGN and U+03A9, say) are not
      modelled. */
  function SameCharacter(x: char, y: char): (r: bool)
    ensures r <==> x == y || {x, y} == {KelvinSign, 'K'}
  {
    Canon(x) == Canon(y)
  }

  /** The canonical form of a string, character by character. */
  function CanonicalForm(s: string): (t: string) {
    seq(|s|, i requires 0 <= i < |s| => Canon(s[i]))
  }

  /** Whether `c` is accepted: `firstIndex(of:)` finds it in the alphabet. */
  predicate InAlphabet(c: char) {
    FirstIndexOf(Alphabet, c).Some?
  }

  /** `firstIndex(of:)` finds a character in the alphabet exactly when the
      alphabet holds its canonical decomposition: the alphabet characters
      themselves and, because it is equivalent to `K`, the Kelvin sign. */
  lemma InAlphabetIffMember(c: char)
    ensures InAlphabet(c) <==> Canon(c) in Alphabet
    ensures InAlphabet(c) <==> c in Alphabet || c == KelvinSign
  {
    AlphabetIsUrlSafe();
    if InAlphabet(c) {
      var k := FirstIndexOf(Alphabet, c).value;
      assert UrlSafe(Alphabet[k]);
    }
    if c == KelvinSign {
      UrlSafeIsInAlphabet('K');
    }
  }

  /** The characters `firstIndex(of:)` finds in the alphabet are exactly the
      URL-safe ones and the Kelvin sign, which is canonically `K`: a
      character is accepted exactly when its canonical decomposition is
      URL-safe. */
  lemma InAlphabetIffCanonicallyUrlSafe(c: char)
    ensures InAlphabet(c) <==> UrlSafe(Canon(c))
    ensures InAlphabet(c) <==> UrlSafe(c) || c == KelvinSign
  {
    InAlphabetIffMember(c);
    AlphabetIsUrlSafe();
    if Canon(c) in Alphabet {
      var k :| 0 <= k < |Alphabet| && Alphabet[k] == Canon(c);
      assert UrlSafe(Alphabet[k]);
    } else if UrlSafe(Canon(c)) {
      UrlSafeIsInAlphabet(Canon(c));
    }
  }

  /** The length of a generated identifier when the caller names none. */
  const DefaultSize: int := 21

  /** The identifier invariant: `firstIndex(of:)` finds every character of
      `s` in the alphabet, so each is an alphabet character or U+212A KELVIN
      SIGN (canonically `K`). */
  predicate Valid(s: string) {
    forall i :: 0 <= i < |s| ==> InAlphabet(s[i])
  }

  /** The stored representation of an identifier. */
  datatype Identifier = Identifier(rawValue: string)

  /** An identifier that keeps the invariant; no other value can be built. */
  type NanoID = id: Identifier | Valid(id.rawValue) witness Identifier("")

  /** The character length of an identifier (`rawValue.count`). Every
      character of an identifier is an alphabet character or the Kelvin
      sign, each a Swift `Character` of its own, so counting Swift
      characters counts the characters of the textual form. */
  function Size(id: NanoID): (n: nat)
    ensures n == |Description(id)|
  {
    |id.rawValue|
  }

  /** True when every offset names a position of the alphabet, which is the
      range `0..<alphabet.count` that each random draw is taken from. */
  predicate Draws(offsets: seq<int>) {
    forall i :: 0 <= i < |offsets| ==> 0 <= offsets[i] < |Alphabet|
  }

  /** Generates an identifier of `size` characters. The `k`-th character is
      the alphabet character at the `k`-th offset drawn; `offsets` stands for
      the draws of the random source, one per position, in draw order.
      A negative `size` traps in Swift's `init(size:)` (the range
      `0..<size` cannot be formed), so the caller must supply exactly `size`
      draws. */
  method Generate(offsets: seq<int>, size: int := DefaultSize) returns (id: NanoID)
    requires |offsets| == size
    requires Draws(offsets)
    ensures Size(id) == size
    ensures forall i :: 0 <= i < size ==> id.rawValue[i] == Alphabet[offsets[i]]
    ensures FromString(id.rawValue) == Some(id)
  {
    var value := "";
    for k := 0 to size
      invariant |value| == k
      invariant forall i :: 0 <= i < k ==> value[i] == Alphabet[offsets[i]]
    {
      value := value + [Alphabet[offsets[k]]];
    }
    id := Identifier(value);
  }

  /** The offsets whose draw makes `Generate` spell the canonical form of
      `id`: every identifier is, up to Swift's `==`, reachable by generation,
      and exactly reachable when it holds no Kelvin sign. The offset chosen
      for a character is the position where `firstIndex(of:)` finds it. */
  function DrawsFor(id: NanoID): (offsets: seq<int>)
    ensures |offsets| == Size(id)
    ensures Draws(offsets)
    ensures forall i :: 0 <= i < |offsets| ==> Alphabet[offsets[i]] == Canon(id.rawValue[i])
  {
    AlphabetIsUrlSafe();
    seq(|id.rawValue|, i requires 0 <= i < |id.rawValue| =>
      FirstIndexOf(Alphabet, id.rawValue[i]).value)
  }

  /** The position of the first character of `a` that equals `c` under
      `SameCharacter`, or none when there is no such character (the standard
      library's `firstIndex(of:)`, with `Character ==` restricted to the
      equivalences that reach the alphabet). */
  function FirstIndexOf(a: string, c: char): (r: Option<nat>)
    ensures r.Some? ==> r.value < |a| && SameCharacter(a[r.value], c)
    ensures r.Some? ==> forall j :: 0 <= j < r.value ==> !SameCharacter(a[j], c)
    ensures r.None? ==> forall j :: 0 <= j < |a| ==> !SameCharacter(a[j], c)
  {
    if |a| == 0 then None
    else if SameCharacter(a[0], c) then Some(0)
    else
      match FirstIndexOf(a[1..], c)
      case None => None
      case Some(k) => Some(k + 1)
  }

  /** The position where the validating scan of `s` against the alphabet
      `a` stops: the first character that has no index in `a`, or none when
      the scan reaches the end. */
  function FirstRejected(a: string, s: string): (r: Option<nat>)
    ensures r.None? <==> forall i :: 0 <= i < |s| ==> FirstIndexOf(a, s[i]).Some?
    ensures r.Some? ==> r.value < |s| && FirstIndexOf(a, s[r.value]).None?
    ensures r.Some? ==> forall i :: 0 <= i < r.value ==> FirstIndexOf(a, s[i]).Some?
  {
    if |s| == 0 then None
    else if FirstIndexOf(a, s[0]).None? then Some(0)
    else
      match FirstRejected(a, s[1..])
      case None => None
      case Some(k) => Some(k + 1)
  }

  /** The validating constructor: accepts `s` exactly when `firstIndex(of:)`
      finds each of its characters in the alphabet, and then keeps it
      unchanged (no trimming, no case change, no normalisation). The empty
      string is accepted. */
  function FromString(s: string): (r: Option<NanoID>)
    ensures r.Some? <==> Valid(s)
    ensures r.Some? ==> r.value.rawValue == s
  {
    match FirstRejected(Alphabet, s)
    case Some(_) => None
    case None => Some(Identifier(s))
  }

  /** The textual form of an identifier; converting it back gives the same
      identifier. */
  function Description(id: NanoID): (s: string)
    ensures FromString(s) == Some(id)
  {
    id.rawValue
  }

  /** The error a decoder throws for a string that is not an identifier
      (`DecodingError.dataCorrupted` with a debug description). */
  datatype DecodingError = DataCorrupted(debugDescription: string)

  /** The debug description given when `s` cannot be converted: a fixed
      46-character preamble naming the type, then `s` in double quotes. */
  function ConversionFailure(s: string): (m: string)
    ensures |m| == 46 + |s| + 1
    ensures m[46..46 + |s|] == s
    ensures m[45] == '"' && m[|m| - 1] == '"'
  {
    "Failed to convert an instance of NanoID from \"" + s + "\""
  }

  /** Decodes an identifier from the single string scalar `s`: succeeds with
      `s` unchanged when the validating constructor accepts it, and otherwise
      fails with a data-corrupted error that names `s`. */
  function Decode(s: string): (r: Result<NanoID, DecodingError>)
    ensures r.Success? <==> FromString(s).Some?
    ensures r.Success? ==> Some(r.value) == FromString(s)
    ensures r.Failure? ==> r.error == DataCorrupted(ConversionFailure(s))
  {
    match FromString(s)
    case Some(id) => Success(id)
    case None => Failure(DataCorrupted(ConversionFailure(s)))
  }

  /** Encodes an identifier as one bare string scalar, never as a keyed
      structure; decoding that scalar gives the identifier back. */
  function Encode(id: NanoID): (s: string)
    ensures Decode(s) == Success(id)
    ensures |s| == Size(id)
  {
    id.rawValue
  }

  /** Swift's `==` on identifiers, synthesised from the `==` of `rawValue`:
      the raw values are canonically equivalent strings. Each character of
      an identifier is a Swift `Character` of its own, so the comparison
      goes character by character. */
  function Equals(a: NanoID, b: NanoID): (r: bool)
    ensures a.rawValue == b.rawValue ==> r
    ensures r ==> Size(a) == Size(b)
  {
    CanonicalForm(a.rawValue) == CanonicalForm(b.rawValue)
  }
}
